/**
  The wake-up handshake between an event loop and the threads or signal handlers that
  send to it (evpipe_write, pipecb, ev_async_send, ev_feed_signal and the poll section of ev_run).

  Any number of senders run `evpipe_write` concurrently with the loop.  Every shared access is one
  atomic step and the steps interleave freely, which is what the memory fences in the C code buy.
 */
module Wakeup {
  /** What a sender reports: an async watcher, or a signal number. */
  datatype Source = Async(w: nat) | Signal(n: nat)

  /** The memory, flags and pipe that senders and loop share. */
  datatype Memory = Memory(
    eventfd: bool,         // the pipe is an eventfd counter
    capacity: nat,         // how many bytes an ordinary pipe holds
    sigPending: bool,
    asyncPending: bool,
    skipped: bool,         // pipe_write_skipped
    wanted: bool,          // pipe_write_wanted
    pipe: nat,             // bytes in the pipe, or the eventfd counter
    sent: seq<bool>,       // the `sent` field of every async watcher
    signalled: seq<bool>)  // the `pending` field of every signal
  {
    predicate Known(src: Source) {
      match src
      case Async(w) => w < |sent|
      case Signal(n) => n < |signalled|
    }

    /** The source has been reported and not fed since. */
    predicate Marked(src: Source)
      requires Known(src)
    {
      match src
      case Async(w) => sent[w]
      case Signal(n) => signalled[n]
    }

    function SetMark(src: Source, b: bool): Memory
      requires Known(src)
    {
      match src
      case Async(w) => this.(sent := sent[w := b])
      case Signal(n) => this.(signalled := signalled[n := b])
    }

    predicate Flag(async: bool) {
      if async then asyncPending else sigPending
    }

    function SetFlag(async: bool, b: bool): Memory {
      if async then this.(asyncPending := b) else this.(sigPending := b)
    }

    function Count(async: bool): nat {
      if async then |sent| else |signalled|
    }
  }

  /** The next shared access of a sender inside ev_async_send / ev_feed_signal. */
  datatype SenderPc =
    | Mark          // sent = 1, or signals[n].pending = 1
    | TestFlag      // if (*flag) return
    | RaiseFlag     // *flag = 1
    | SetSkipped    // pipe_write_skipped = 1
    | TestWanted    // if (pipe_write_wanted)
    | ClearSkipped  // pipe_write_skipped = 0
    | Write         // write (evpipe [1], ...)
    | Return

  datatype Sender = Sender(src: Source, pc: SenderPc)

  /** The next shared access of the loop.  pipecb treats signals first and async watchers second,
      in the same way, so its steps carry the kind they are treating. */
  datatype LoopPc =
    | Running                               // anything outside the poll section and pipecb
    | TestSkipped                           // pipe_write_wanted is set; about to test pipe_write_skipped
    | Poll(block: bool)                     // inside backend_poll
    | Polled(ready: bool)                   // poll returned, ready says whether the pipe was readable
    | Recheck(ready: bool)                  // pipe_write_wanted is cleared; about to test pipe_write_skipped
    | Invoke(readable: bool, custom: bool)  // ev_invoke_pending, with the events pipe_w was fed
    | ReadPipe(readable: bool)              // pipecb: drain the pipe
    | ResetSkipped                          // pipecb: pipe_write_skipped = 0
    | Test(async: bool)                     // pipecb: if (sig_pending), if (async_pending)
    | Reset(async: bool)                    // pipecb: the flag = 0
    | Scan(async: bool, left: nat)          // pipecb: sources below `left` are still to be scanned
    | Feed(async: bool, i: nat)             // pipecb: source i is marked; clear the mark and feed it

  function SourceOf(async: bool, i: nat): Source {
    if async then Async(i) else Signal(i)
  }

  datatype State = State(
    m: Memory,
    senders: map<nat, Sender>,  // the calls in flight, by thread
    loop: LoopPc,
    fed: seq<Source>)           // every feed the loop has done, oldest first

  /** The memory and the program counter after one step of a sender. */
  function SenderStep(m: Memory, d: Sender): (Memory, SenderPc) {
    match d.pc
    case Mark => if m.Known(d.src) then (m.SetMark(d.src, true), TestFlag) else (m, Return)
    case TestFlag => (m, if m.Flag(d.src.Async?) then Return else RaiseFlag)
    case RaiseFlag => (m.SetFlag(d.src.Async?, true), SetSkipped)
    case SetSkipped => (m.(skipped := true), TestWanted)
    case TestWanted => (m, if m.wanted then ClearSkipped else Return)
    case ClearSkipped => (m.(skipped := false), Write)
    case Write => // a full pipe refuses the byte; an eventfd adds to its counter
      (if !m.eventfd && m.pipe >= m.capacity then m else m.(pipe := m.pipe + 1), Return)
    case Return => (m, Return)
  }

  /** What follows the scan of one kind in pipecb. */
  function AfterScan(async: bool): LoopPc {
    if async then Running else Test(true)
  }

  /** The memory and the program counter after one step of the loop. */
  function LoopStep(m: Memory, pc: LoopPc): (Memory, LoopPc) {
    match pc
    case Running => (m.(wanted := true), TestSkipped)
    case TestSkipped => (m, Poll(!m.skipped))
    case Poll(_) => (m, Polled(m.pipe > 0))
    case Polled(ready) => (m.(wanted := false), Recheck(ready))
    case Recheck(ready) => (m, Invoke(ready, m.skipped))
    case Invoke(r, c) => (m, if r || c then ReadPipe(r) else Running)
    case ReadPipe(r) => // an eventfd read takes the whole counter, a pipe read at most four bytes
      (m.(pipe := if !r then m.pipe else if m.eventfd || m.pipe < 4 then 0 else m.pipe - 4), ResetSkipped)
    case ResetSkipped => (m.(skipped := false), Test(false))
    case Test(async) => (m, if m.Flag(async) then Reset(async) else AfterScan(async))
    case Reset(async) => (m.SetFlag(async, false), Scan(async, m.Count(async)))
    case Scan(async, k) =>
      if 0 < k <= m.Count(async)
      then (m, if m.Marked(SourceOf(async, k - 1)) then Feed(async, k - 1) else Scan(async, k - 1))
      else (m, AfterScan(async))
    case Feed(async, i) =>
      if i < m.Count(async) then (m.SetMark(SourceOf(async, i), false), Scan(async, i))
      else (m, AfterScan(async))
  }

  /** One action of the system: a sender calls, a sender takes its next step, or the loop does.
      `timeout` lets a blocking poll return for a reason other than the pipe. */
  datatype Action = DoCall(t: nat, src: Source) | DoSender(t: nat) | DoLoop(timeout: bool)

  predicate Enabled(s: State, a: Action) {
    match a
    case DoCall(t, src) => t !in s.senders && s.m.Known(src)
    case DoSender(t) => t in s.senders
    case DoLoop(timeout) => s.loop == Poll(true) ==> s.m.pipe > 0 || timeout
  }

  function Advance(senders: map<nat, Sender>, t: nat, pc: SenderPc): map<nat, Sender>
    requires t in senders
  {
    if pc.Return? then senders - {t} else senders[t := senders[t].(pc := pc)]
  }

  function Next(s: State, a: Action): State
    requires Enabled(s, a)
  {
    match a
    case DoCall(t, src) => s.(senders := s.senders[t := Sender(src, Mark)])
    case DoSender(t) =>
      var (m, pc) := SenderStep(s.m, s.senders[t]);
      s.(m := m, senders := Advance(s.senders, t, pc))
    case DoLoop(_) =>
      var (m, pc) := LoopStep(s.m, s.loop);
      State(m, s.senders, pc,
            if s.loop.Feed? && s.loop.i < s.m.Count(s.loop.async)
            then s.fed + [SourceOf(s.loop.async, s.loop.i)] else s.fed)
  }

  ghost predicate Init(s: State) {
    && 0 < s.m.capacity
    && !s.m.sigPending && !s.m.asyncPending && !s.m.skipped && !s.m.wanted && s.m.pipe == 0
    && (forall src :: s.m.Known(src) ==> !s.m.Marked(src))
    && s.senders == map[] && s.loop == Running && s.fed == []
  }

  // ----- the inductive invariant

  /** The sender is about to set pipe_write_skipped, or has decided to write. */
  predicate OnPipe(pc: SenderPc) {
    pc.SetSkipped? || pc.ClearSkipped? || pc.Write?
  }

  /** The sender has marked its source and not yet raised, or found raised, the flag. */
  predicate OnFlag(pc: SenderPc) {
    pc.TestFlag? || pc.RaiseFlag?
  }

  ghost predicate Committed(senders: map<nat, Sender>) {
    exists t :: t in senders && OnPipe(senders[t].pc)
  }

  /** Some sender has raised its flag and not finished. */
  ghost predicate InFlight(senders: map<nat, Sender>) {
    exists t :: t in senders && (OnPipe(senders[t].pc) || senders[t].pc.TestWanted?)
  }

  ghost predicate Raising(senders: map<nat, Sender>, async: bool) {
    exists t :: t in senders && senders[t].src.Async? == async && OnFlag(senders[t].pc)
  }

  /** pipecb has yet to test the flag of this kind. */
  predicate WillTest(pc: LoopPc, async: bool) {
    || pc.ResetSkipped?
    || ((pc.Test? || pc.Reset?) && (pc.async ==> async))
    || ((pc.Scan? || pc.Feed?) && !pc.async && async)
  }

  /** pipecb has reset the flag and has yet to scan this source. */
  predicate WillScan(pc: LoopPc, async: bool, i: nat) {
    (pc.Scan? && pc.async == async && i < pc.left) || (pc.Feed? && pc.async == async && i <= pc.i)
  }

  predicate Control(m: Memory, pc: LoopPc) {
    && 0 < m.capacity
    && (m.wanted <==> pc.TestSkipped? || pc.Poll? || pc.Polled?)
    && (pc.Scan? ==> pc.left <= m.Count(pc.async))
    && (pc.Feed? ==> pc.i < m.Count(pc.async))
    && (pc.Reset? ==> m.Flag(pc.async))
  }

  /** A raised flag is never forgotten: a skip is recorded, the pipe holds a byte, a sender is about
      to provide one of the two, or pipecb has yet to test the flag. */
  predicate FlagCovered(m: Memory, pc: LoopPc, committed: bool, async: bool) {
    m.Flag(async) ==> m.skipped || m.pipe > 0 || committed || WillTest(pc, async)
  }

  /** A loop that blocks does so with nothing raised, or with a wake-up in the pipe or on its way. */
  predicate BlockCovered(m: Memory, pc: LoopPc, inFlight: bool) {
    pc == Poll(true) && (m.sigPending || m.asyncPending || m.skipped) ==> m.pipe > 0 || inFlight
  }

  predicate MarkCovered(m: Memory, pc: LoopPc, raising: bool, async: bool, i: nat)
    requires i < m.Count(async)
  {
    m.Marked(SourceOf(async, i)) ==> m.Flag(async) || raising || WillScan(pc, async, i)
  }

  ghost predicate MarksCovered(s: State, async: bool) {
    forall i :: 0 <= i < s.m.Count(async) ==> MarkCovered(s.m, s.loop, Raising(s.senders, async), async, i)
  }

  ghost predicate Inv(s: State) {
    && Control(s.m, s.loop)
    && (forall async :: FlagCovered(s.m, s.loop, Committed(s.senders), async))
    && BlockCovered(s.m, s.loop, InFlight(s.senders))
    && (forall async :: MarksCovered(s, async))
  }

  /** How moving one sender moves the three existential witnesses. */
  lemma AdvanceWitness(senders: map<nat, Sender>, t: nat, pc: SenderPc)
    requires t in senders
    ensures var ss := Advance(senders, t, pc);
      && (OnPipe(pc) || (Committed(senders) && !OnPipe(senders[t].pc)) ==> Committed(ss))
      && (OnPipe(pc) || pc.TestWanted? ==> InFlight(ss))
      && (InFlight(senders) && !OnPipe(senders[t].pc) && !senders[t].pc.TestWanted? ==> InFlight(ss))
  {
    var ss := Advance(senders, t, pc);
    assert forall u :: u in senders && u != t ==> u in ss && ss[u] == senders[u];
    assert !pc.Return? ==> t in ss && ss[t].pc == pc;
  }

  lemma AdvanceRaising(senders: map<nat, Sender>, t: nat, pc: SenderPc, async: bool)
    requires t in senders
    ensures var ss := Advance(senders, t, pc);
      && (OnFlag(pc) && senders[t].src.Async? == async ==> Raising(ss, async))
      && (Raising(senders, async) && (OnFlag(senders[t].pc) ==> senders[t].src.Async? != async)
          ==> Raising(ss, async))
  {
    var ss := Advance(senders, t, pc);
    assert forall u :: u in senders && u != t ==> u in ss && ss[u] == senders[u];
    assert !pc.Return? ==> t in ss && ss[t].pc == pc && ss[t].src == senders[t].src;
  }

  lemma SenderControl(m: Memory, d: Sender, pc: LoopPc)
    requires Control(m, pc)
    ensures Control(SenderStep(m, d).0, pc)
  {
  }

  lemma SenderMark(s: State, t: nat, async: bool, i: nat)
    requires t in s.senders && i < s.m.Count(async)
    requires MarkCovered(s.m, s.loop, Raising(s.senders, async), async, i)
    ensures var s' := Next(s, DoSender(t));
      i < s'.m.Count(async) && MarkCovered(s'.m, s'.loop, Raising(s'.senders, async), async, i)
  {
    AdvanceRaising(s.senders, t, SenderStep(s.m, s.senders[t]).1, async);
  }

  lemma SenderFlags(s: State, t: nat, async: bool)
    requires t in s.senders && Control(s.m, s.loop) && FlagCovered(s.m, s.loop, Committed(s.senders), async)
    ensures var s' := Next(s, DoSender(t)); FlagCovered(s'.m, s'.loop, Committed(s'.senders), async)
  {
    AdvanceWitness(s.senders, t, SenderStep(s.m, s.senders[t]).1);
  }

  lemma SenderBlock(s: State, t: nat)
    requires t in s.senders && Control(s.m, s.loop) && BlockCovered(s.m, s.loop, InFlight(s.senders))
    ensures var s' := Next(s, DoSender(t)); BlockCovered(s'.m, s'.loop, InFlight(s'.senders))
  {
    AdvanceWitness(s.senders, t, SenderStep(s.m, s.senders[t]).1);
  }

  lemma LoopMark(s: State, async: bool, i: nat)
    requires i < s.m.Count(async) && Control(s.m, s.loop)
    requires MarkCovered(s.m, s.loop, Raising(s.senders, async), async, i)
    ensures var (m, pc) := LoopStep(s.m, s.loop);
      i < m.Count(async) && MarkCovered(m, pc, Raising(s.senders, async), async, i)
  {
  }

  lemma LoopControl(m: Memory, pc: LoopPc)
    requires Control(m, pc)
    ensures var (m', pc') := LoopStep(m, pc); Control(m', pc')
  {
  }

  lemma LoopFlags(m: Memory, pc: LoopPc, committed: bool, async: bool)
    requires Control(m, pc) && FlagCovered(m, pc, committed, async)
    ensures var (m', pc') := LoopStep(m, pc); FlagCovered(m', pc', committed, async)
  {
  }

  lemma SenderMarks(s: State, t: nat, async: bool)
    requires t in s.senders && MarksCovered(s, async)
    ensures MarksCovered(Next(s, DoSender(t)), async)
  {
    var s' := Next(s, DoSender(t));
    assert s'.m.Count(async) == s.m.Count(async);
    forall i | 0 <= i < s'.m.Count(async)
      ensures MarkCovered(s'.m, s'.loop, Raising(s'.senders, async), async, i)
    {
      SenderMark(s, t, async, i);
    }
  }

  lemma SenderInv(s: State, t: nat)
    requires Inv(s) && t in s.senders
    ensures Inv(Next(s, DoSender(t)))
  {
    var s' := Next(s, DoSender(t));
    SenderControl(s.m, s.senders[t], s.loop);
    SenderBlock(s, t);
    forall async ensures FlagCovered(s'.m, s'.loop, Committed(s'.senders), async) && MarksCovered(s', async) {
      SenderFlags(s, t, async);
      SenderMarks(s, t, async);
    }
  }

  lemma LoopMarks(s: State, timeout: bool, async: bool)
    requires Control(s.m, s.loop) && Enabled(s, DoLoop(timeout)) && MarksCovered(s, async)
    ensures MarksCovered(Next(s, DoLoop(timeout)), async)
  {
    var s' := Next(s, DoLoop(timeout));
    assert s'.m.Count(async) == s.m.Count(async);
    forall i | 0 <= i < s'.m.Count(async)
      ensures MarkCovered(s'.m, s'.loop, Raising(s'.senders, async), async, i)
    {
      LoopMark(s, async, i);
    }
  }

  lemma LoopInv(s: State, timeout: bool)
    requires Inv(s) && Enabled(s, DoLoop(timeout))
    ensures Inv(Next(s, DoLoop(timeout)))
  {
    var s' := Next(s, DoLoop(timeout));
    LoopControl(s.m, s.loop);
    assert BlockCovered(s'.m, s'.loop, InFlight(s'.senders)) by {
      assert FlagCovered(s.m, s.loop, Committed(s.senders), true);
      assert FlagCovered(s.m, s.loop, Committed(s.senders), false);
      assert Committed(s.senders) ==> InFlight(s.senders);
    }
    forall async ensures FlagCovered(s'.m, s'.loop, Committed(s'.senders), async) && MarksCovered(s', async) {
      LoopFlags(s.m, s.loop, Committed(s.senders), async);
      LoopMarks(s, timeout, async);
    }
  }

  lemma CallInv(s: State, t: nat, src: Source)
    requires Inv(s) && Enabled(s, DoCall(t, src))
    ensures Inv(Next(s, DoCall(t, src)))
  {
    var s' := Next(s, DoCall(t, src));
    assert forall u :: u in s.senders ==> u in s'.senders && s'.senders[u] == s.senders[u];
    assert Committed(s.senders) ==> Committed(s'.senders);
    assert InFlight(s.senders) ==> InFlight(s'.senders);
    forall async ensures FlagCovered(s'.m, s'.loop, Committed(s'.senders), async) && MarksCovered(s', async) {
      assert FlagCovered(s.m, s.loop, Committed(s.senders), async) && MarksCovered(s, async);
      assert Raising(s.senders, async) ==> Raising(s'.senders, async);
    }
  }

  lemma InitInv(s: State)
    requires Init(s)
    ensures Inv(s)
  {
    forall async ensures FlagCovered(s.m, s.loop, Committed(s.senders), async) && MarksCovered(s, async) {
      forall i | 0 <= i < s.m.Count(async)
        ensures MarkCovered(s.m, s.loop, Raising(s.senders, async), async, i)
      {
        assert s.m.Known(SourceOf(async, i));
      }
    }
  }

  // ----- runs

  ghost predicate IsRun(ss: seq<State>, acts: seq<Action>) {
    && |ss| == |acts| + 1
    && forall i :: 0 <= i < |acts| ==> Enabled(ss[i], acts[i]) && ss[i + 1] == Next(ss[i], acts[i])
  }

  /** Every state of every interleaving of any number of senders with the loop satisfies the invariant. */
  lemma {:induction false} RunInv(ss: seq<State>, acts: seq<Action>, k: nat)
    requires IsRun(ss, acts) && Init(ss[0]) && k < |ss|
    ensures Inv(ss[k])
  {
    if k == 0 {
      InitInv(ss[0]);
    } else {
      RunInv(ss, acts, k - 1);
      match acts[k - 1]
      case DoCall(t, src) => CallInv(ss[k - 1], t, src);
      case DoSender(t) => SenderInv(ss[k - 1], t);
      case DoLoop(b) => LoopInv(ss[k - 1], b);
    }
  }

  /** No lost wake-up: whenever the loop is blocked in poll while a pending flag is set, the pipe
      holds a byte or some sender has raised its flag and has yet to finish. */
  lemma NoLostWakeup(ss: seq<State>, acts: seq<Action>, k: nat)
    requires IsRun(ss, acts) && Init(ss[0]) && k < |ss|
    requires ss[k].loop == Poll(true) && (ss[k].m.sigPending || ss[k].m.asyncPending)
    ensures ss[k].m.pipe > 0 || InFlight(ss[k].senders)
  {
    RunInv(ss, acts, k);
  }

  /** Steps a sender that has raised its flag still needs until its byte is in the pipe. */
  function StepsToWrite(pc: SenderPc): nat {
    match pc
    case SetSkipped => 4
    case TestWanted => 3
    case ClearSkipped => 2
    case Write => 1
    case _ => 0
  }

  function StepsOf(t: nat, acts: seq<Action>): nat {
    if acts == [] then 0 else (if acts[0] == DoSender(t) then 1 else 0) + StepsOf(t, acts[1..])
  }

  lemma SenderNearsWrite(m: Memory, d: Sender)
    requires m.wanted && 0 < m.capacity
    ensures var (m', pc) := SenderStep(m, d);
      && m'.wanted && m'.capacity == m.capacity && m'.pipe >= m.pipe
      && (StepsToWrite(d.pc) > 0 ==> m'.pipe > 0 || StepsToWrite(pc) == StepsToWrite(d.pc) - 1 > 0)
  {
  }

  /** One step by anybody but the loop, while the loop wants a wake-up, brings sender t closer to its write. */
  lemma WriteProgress(s: State, a: Action, t: nat)
    requires Enabled(s, a) && !a.DoLoop? && s.m.wanted && 0 < s.m.capacity
    requires s.m.pipe > 0 || (t in s.senders && StepsToWrite(s.senders[t].pc) > 0)
    ensures var s' := Next(s, a);
      && s'.m.wanted && s'.m.capacity == s.m.capacity
      && (s'.m.pipe > 0
          || (t in s'.senders && StepsToWrite(s'.senders[t].pc) > 0 && StepsToWrite(s'.senders[t].pc)
              == StepsToWrite(s.senders[t].pc) - if a == DoSender(t) then 1 else 0))
  {
    if a.DoSender? {
      SenderNearsWrite(s.m, s.senders[a.t]);
    }
  }

  lemma RunTail(ss: seq<State>, acts: seq<Action>)
    requires IsRun(ss, acts) && acts != []
    ensures IsRun(ss[1..], acts[1..]) && ss[1] == Next(ss[0], acts[0])
    ensures forall a :: a in acts[1..] ==> a in acts
  {
  }

  /** The loop wants a wake-up, and has it, or sender t needs no more than n steps to write it. */
  predicate Nearing(s: State, t: nat, n: nat) {
    && s.m.wanted && 0 < s.m.capacity
    && (s.m.pipe > 0 || (t in s.senders && 0 < StepsToWrite(s.senders[t].pc) <= n))
  }

  lemma Nears(s: State, a: Action, t: nat, n: nat)
    requires Enabled(s, a) && !a.DoLoop? && Nearing(s, t, n)
    ensures a == DoSender(t) && n > 0 ==> Nearing(Next(s, a), t, n - 1)
    ensures a != DoSender(t) ==> Nearing(Next(s, a), t, n)
  {
    WriteProgress(s, a, t);
  }

  /** The unfinished sender of NoLostWakeup does write: if the loop stays in poll, then however the senders
      interleave, at most four more steps of that sender put a byte into the pipe. */
  lemma {:induction false} InFlightSenderWakesLoop(ss: seq<State>, acts: seq<Action>, t: nat)
    requires IsRun(ss, acts) && (forall a :: a in acts ==> !a.DoLoop?)
    requires Nearing(ss[0], t, StepsOf(t, acts))
    ensures ss[|acts|].m.pipe > 0
    decreases |acts|
  {
    if acts != [] {
      assert acts[0] in acts;
      Nears(ss[0], acts[0], t, StepsOf(t, acts));
      RunTail(ss, acts);
      InFlightSenderWakesLoop(ss[1..], acts[1..], t);
    }
  }

  /** The loop is asleep for good unless somebody calls: it blocks on an empty pipe and no call is in flight. */
  predicate Quiescent(s: State) {
    s.loop == Poll(true) && s.m.pipe == 0 && s.senders == map[]
  }

  /** A loop that sleeps for good owes nothing: no flag, no skip and no source is left marked. */
  lemma QuiescentOwesNothing(s: State, src: Source)
    requires Inv(s) && Quiescent(s) && s.m.Known(src)
    ensures !s.m.sigPending && !s.m.asyncPending && !s.m.skipped && !s.m.Marked(src)
  {
    assert MarksCovered(s, src.Async?);
    var i := if src.Async? then src.w else src.n;
    assert SourceOf(src.Async?, i) == src;
    assert MarkCovered(s.m, s.loop, Raising(s.senders, src.Async?), src.Async?, i);
  }

  ghost predicate FedAt(ss: seq<State>, k: nat, src: Source) {
    k + 1 < |ss| && ss[k + 1].fed == ss[k].fed + [src]
  }

  lemma SenderKeepsMark(m: Memory, d: Sender, src: Source)
    requires m.Known(src) && m.Marked(src)
    ensures var m' := SenderStep(m, d).0; m'.Known(src) && m'.Marked(src)
  {
  }

  lemma LoopKeepsMark(m: Memory, pc: LoopPc, src: Source)
    requires m.Known(src) && m.Marked(src)
    ensures var m' := LoopStep(m, pc).0;
      m'.Known(src) && (m'.Marked(src) || (pc.Feed? && SourceOf(pc.async, pc.i) == src))
  {
  }

  /** Only feeding a source clears its mark. */
  lemma MarkStays(s: State, a: Action, src: Source)
    requires Enabled(s, a) && s.m.Known(src) && s.m.Marked(src)
    ensures var s' := Next(s, a);
      s'.m.Known(src) && (s'.m.Marked(src) || s'.fed == s.fed + [src])
  {
    match a
    case DoCall(_, _) =>
    case DoSender(t) => SenderKeepsMark(s.m, s.senders[t], src);
    case DoLoop(_) => LoopKeepsMark(s.m, s.loop, src);
  }

  /** Every report is delivered: a source marked at i has been fed by the time the loop next sleeps for good. */
  lemma {:induction false} MarkedIsFed(ss: seq<State>, acts: seq<Action>, i: nat, j: nat, src: Source)
    requires IsRun(ss, acts) && Init(ss[0]) && i <= j < |ss|
    requires ss[i].m.Known(src) && ss[i].m.Marked(src) && Quiescent(ss[j])
    ensures exists k :: i <= k < j && FedAt(ss, k, src)
    decreases j - i
  {
    if i == j {
      RunInv(ss, acts, j);
      QuiescentOwesNothing(ss[j], src);
    } else {
      MarkStays(ss[i], acts[i], src);
      if ss[i + 1].m.Marked(src) {
        MarkedIsFed(ss, acts, i + 1, j, src);
      } else {
        assert FedAt(ss, i, src);
      }
    }
  }

  // ----- nothing is fed that was not reported

  /** At step j a sender marks the source. */
  ghost predicate Reports(ss: seq<State>, acts: seq<Action>, j: nat, src: Source) {
    && j < |acts| < |ss| && acts[j].DoSender? && acts[j].t in ss[j].senders
    && ss[j].senders[acts[j].t] == Sender(src, Mark) && ss[j].m.Known(src)
  }

  /** Some sender has marked the source after the first i steps, and it has not been fed since. */
  ghost predicate Reported(ss: seq<State>, acts: seq<Action>, i: nat, src: Source) {
    exists j: nat {:trigger Reports(ss, acts, j, src)} :: j < i && Reports(ss, acts, j, src)
      && forall x: nat {:trigger FedAt(ss, x, src)} :: j < x < i ==> !FedAt(ss, x, src)
  }

  /** The loop is about to feed the source, which is marked. */
  predicate FeedOk(s: State) {
    s.loop.Feed? ==> s.loop.i < s.m.Count(s.loop.async) && s.m.Marked(SourceOf(s.loop.async, s.loop.i))
  }

  lemma FeedStaysOk(s: State, a: Action)
    requires Control(s.m, s.loop) && FeedOk(s) && Enabled(s, a)
    ensures FeedOk(Next(s, a))
  {
    match a
    case DoCall(_, _) =>
    case DoSender(t) =>
      if s.loop.Feed? {
        SenderKeepsMark(s.m, s.senders[t], SourceOf(s.loop.async, s.loop.i));
      }
    case DoLoop(_) =>
  }

  lemma SenderMarks1(m: Memory, d: Sender, src: Source)
    ensures var m' := SenderStep(m, d).0;
      && (m'.Known(src) <==> m.Known(src))
      && (m'.Known(src) && m'.Marked(src) ==> m.Marked(src) || d == Sender(src, Mark))
  {
  }

  lemma LoopMarksNone(m: Memory, pc: LoopPc, src: Source)
    requires Control(m, pc)
    ensures var m' := LoopStep(m, pc).0;
      && (m'.Known(src) <==> m.Known(src))
      && (m'.Known(src) && m'.Marked(src) ==> m.Marked(src) && !(pc.Feed? && SourceOf(pc.async, pc.i) == src))
  {
  }

  /** A step of the loop feeds a source only when it stands before that source's mark. */
  lemma FeedIsOfLoop(s: State, a: Action, src: Source)
    requires Enabled(s, a) && Next(s, a).fed == s.fed + [src]
    ensures a.DoLoop? && s.loop.Feed? && src == SourceOf(s.loop.async, s.loop.i) && s.m.Known(src)
  {
    var fed' := Next(s, a).fed;
    assert |fed'| == |s.fed| + 1 && fed'[|s.fed|] == src;
    match a
    case DoCall(_, _) =>
    case DoSender(_) =>
    case DoLoop(_) =>
  }

  /** A source that is marked was marked before, or by a sender in this step; and feeding it clears the mark. */
  lemma MarkComes(s: State, a: Action, src: Source)
    requires Control(s.m, s.loop) && Enabled(s, a) && Next(s, a).m.Known(src) && Next(s, a).m.Marked(src)
    ensures s.m.Known(src)
    ensures s.m.Marked(src) || (a.DoSender? && s.senders[a.t] == Sender(src, Mark))
    ensures Next(s, a).fed != s.fed + [src]
  {
    match a
    case DoCall(_, _) =>
    case DoSender(t) => SenderMarks1(s.m, s.senders[t], src);
    case DoLoop(_) => LoopMarksNone(s.m, s.loop, src);
    if Next(s, a).fed == s.fed + [src] {
      FeedIsOfLoop(s, a, src);
    }
  }

  lemma {:induction false} FeedsOk(ss: seq<State>, acts: seq<Action>, k: nat)
    requires IsRun(ss, acts) && Init(ss[0]) && k < |ss|
    ensures FeedOk(ss[k])
  {
    if k > 0 {
      RunInv(ss, acts, k - 1);
      FeedsOk(ss, acts, k - 1);
      FeedStaysOk(ss[k - 1], acts[k - 1]);
    }
  }

  lemma ReportedOn(ss: seq<State>, acts: seq<Action>, i: nat, src: Source)
    requires Reported(ss, acts, i, src) && !FedAt(ss, i, src)
    ensures Reported(ss, acts, i + 1, src)
  {
    var j: nat :| j < i && Reports(ss, acts, j, src)
      && forall x: nat {:trigger FedAt(ss, x, src)} :: j < x < i ==> !FedAt(ss, x, src);
  }

  lemma ReportedNow(ss: seq<State>, acts: seq<Action>, i: nat, src: Source)
    requires Reports(ss, acts, i, src)
    ensures Reported(ss, acts, i + 1, src)
  {
  }

  /** In every run, a source that is marked has been marked by a sender since it was last fed. */
  lemma {:induction false} MarkedWasReported(ss: seq<State>, acts: seq<Action>, k: nat, src: Source)
    requires IsRun(ss, acts) && Init(ss[0]) && k < |ss| && ss[k].m.Known(src) && ss[k].m.Marked(src)
    ensures Reported(ss, acts, k, src)
  {
    if k > 0 {
      var i := k - 1;
      RunInv(ss, acts, i);
      MarkComes(ss[i], acts[i], src);
      if ss[i].m.Marked(src) {
        MarkedWasReported(ss, acts, i, src);
        ReportedOn(ss, acts, i, src);
      } else {
        ReportedNow(ss, acts, i, src);
      }
    }
  }

  /** Nothing is fed that was not reported: in every run, each feed of a source has a step before it in which a sender
      marked the source, and no feed of the source lies between the two. */
  lemma FedWasReported(ss: seq<State>, acts: seq<Action>, k: nat, src: Source)
    requires IsRun(ss, acts) && Init(ss[0]) && FedAt(ss, k, src)
    ensures Reported(ss, acts, k, src)
  {
    FeedsOk(ss, acts, k);
    FeedIsOfLoop(ss[k], acts[k], src);
    MarkedWasReported(ss, acts, k, src);
  }

  function Feeds(fed: seq<Source>, src: Source): nat {
    if fed == [] then 0 else Feeds(fed[..|fed| - 1], src) + if fed[|fed| - 1] == src then 1 else 0
  }

  /** The calls for a source among these actions. */
  function CallsOf(acts: seq<Action>, src: Source): nat {
    if acts == [] then 0
    else CallsOf(acts[..|acts| - 1], src) + if acts[|acts| - 1].DoCall? && acts[|acts| - 1].src == src then 1 else 0
  }

  /** The calls in flight that have yet to mark this source. */
  function ToMark(senders: map<nat, Sender>, src: Source): set<nat> {
    set t | t in senders && senders[t] == Sender(src, Mark)
  }

  /** The feeds a source is still owed. */
  function Owed(s: State, src: Source): nat {
    |ToMark(s.senders, src)| + if s.m.Known(src) && s.m.Marked(src) then 1 else 0
  }

  lemma CallOwes(s: State, t: nat, src: Source, other: Source)
    requires t !in s.senders && s.m.Known(other)
    ensures Owed(Next(s, DoCall(t, other)), src) == Owed(s, src) + if other == src then 1 else 0
  {
    assert ToMark(s.senders[t := Sender(other, Mark)], src)
      == ToMark(s.senders, src) + if other == src then {t} else {};
  }

  lemma ToMarkLess(senders: map<nat, Sender>, t: nat, pc: SenderPc, src: Source)
    requires t in senders && pc != Mark
    ensures ToMark(Advance(senders, t, pc), src) == ToMark(senders, src) - {t}
    ensures t in ToMark(senders, src) <==> senders[t] == Sender(src, Mark)
  {
  }

  lemma SenderMovesOn(m: Memory, d: Sender)
    ensures SenderStep(m, d).1 != Mark
  {
  }

  lemma SenderOwes(s: State, t: nat, src: Source)
    requires t in s.senders
    ensures Owed(Next(s, DoSender(t)), src) <= Owed(s, src)
  {
    SenderMovesOn(s.m, s.senders[t]);
    ToMarkLess(s.senders, t, SenderStep(s.m, s.senders[t]).1, src);
    SenderMarks1(s.m, s.senders[t], src);
    if t !in ToMark(s.senders, src) {
      assert ToMark(s.senders, src) - {t} == ToMark(s.senders, src);
    }
  }

  lemma OneMoreFeed(fed: seq<Source>, other: Source, src: Source)
    ensures Feeds(fed + [other], src) == Feeds(fed, src) + if other == src then 1 else 0
  {
    assert (fed + [other])[..|fed|] == fed;
  }

  lemma LoopOwes(s: State, timeout: bool, src: Source)
    requires Control(s.m, s.loop) && FeedOk(s) && Enabled(s, DoLoop(timeout))
    ensures var s' := Next(s, DoLoop(timeout));
      Feeds(s'.fed, src) + Owed(s', src) <= Feeds(s.fed, src) + Owed(s, src)
  {
    LoopMarksNone(s.m, s.loop, src);
    if s.loop.Feed? {
      OneMoreFeed(s.fed, SourceOf(s.loop.async, s.loop.i), src);
    }
  }

  /** The feeds of a source never outnumber the calls that reported it. */
  lemma {:induction false} FeedsCalled(ss: seq<State>, acts: seq<Action>, k: nat, src: Source)
    requires IsRun(ss, acts) && Init(ss[0]) && k < |ss|
    ensures Feeds(ss[k].fed, src) + Owed(ss[k], src) <= CallsOf(acts[..k], src)
  {
    if k == 0 {
      assert ToMark(ss[0].senders, src) == {};
    } else {
      var i := k - 1;
      FeedsCalled(ss, acts, i, src);
      RunInv(ss, acts, i);
      FeedsOk(ss, acts, i);
      assert acts[..k][..i] == acts[..i];
      match acts[i]
      case DoCall(t, other) => CallOwes(ss[i], t, src, other);
      case DoSender(t) => SenderOwes(ss[i], t, src);
      case DoLoop(b) => LoopOwes(ss[i], b, src);
    }
  }

  // ----- every call is delivered

  lemma SenderStays(s: State, a: Action, t: nat)
    requires Enabled(s, a) && t in s.senders && a != DoSender(t)
    ensures t in Next(s, a).senders && Next(s, a).senders[t] == s.senders[t]
  {
  }

  lemma CountsStay(m: Memory, pc: LoopPc)
    ensures var m' := LoopStep(m, pc).0; |m'.sent| == |m.sent| && |m'.signalled| == |m.signalled|
  {
  }

  lemma SenderKeepsFlag(m: Memory, d: Sender)
    ensures var m' := SenderStep(m, d).0;
      && |m'.sent| == |m.sent| && |m'.signalled| == |m.signalled| && m'.capacity == m.capacity && m.pipe <= m'.pipe
      && (m.sigPending ==> m'.sigPending) && (m.asyncPending ==> m'.asyncPending)
  {
  }

  lemma KnownStays(s: State, a: Action, src: Source)
    requires Enabled(s, a) && s.m.Known(src)
    ensures Next(s, a).m.Known(src)
  {
    match a
    case DoCall(_, _) =>
    case DoSender(t) => SenderKeepsFlag(s.m, s.senders[t]);
    case DoLoop(_) => CountsStay(s.m, s.loop);
  }

  lemma {:induction false} MarkerFed(ss: seq<State>, acts: seq<Action>, i: nat, j: nat, t: nat, src: Source)
    requires IsRun(ss, acts) && Init(ss[0]) && i <= j < |ss| && ss[i].m.Known(src)
    requires t in ss[i].senders && ss[i].senders[t] == Sender(src, Mark) && Quiescent(ss[j])
    ensures exists k :: i <= k < j && FedAt(ss, k, src)
    decreases j - i
  {
    if acts[i] == DoSender(t) {
      assert ss[i + 1].m.Known(src) && ss[i + 1].m.Marked(src);
      MarkedIsFed(ss, acts, i + 1, j, src);
    } else {
      SenderStays(ss[i], acts[i], t);
      KnownStays(ss[i], acts[i], src);
      MarkerFed(ss, acts, i + 1, j, t, src);
    }
  }

  /** Every call is delivered: the source of a call made at step i has been fed after that by the time the loop next
      sleeps for good. */
  lemma CallIsFed(ss: seq<State>, acts: seq<Action>, i: nat, j: nat, t: nat, src: Source)
    requires IsRun(ss, acts) && Init(ss[0]) && i < j < |ss| && acts[i] == DoCall(t, src) && Quiescent(ss[j])
    ensures exists k :: i < k < j && FedAt(ss, k, src)
  {
    MarkerFed(ss, acts, i + 1, j, t, src);
  }

  // ----- a sender writes for a reason

  /** At some step before k, sender t has tested its flag and found it not raised, and at a later one it has found a
      wake-up wanted. */
  ghost predicate FoundLow(ss: seq<State>, acts: seq<Action>, k: nat, t: nat) {
    exists j: nat {:trigger acts[j]} :: j < k <= |acts| < |ss| && acts[j] == DoSender(t) && t in ss[j].senders
      && ss[j].senders[t].pc == TestFlag && !ss[j].m.Flag(ss[j].senders[t].src.Async?)
      && forall x: nat {:trigger acts[x]} :: j < x < k ==> !(acts[x].DoCall? && acts[x].t == t)
  }

  ghost predicate FoundWanted(ss: seq<State>, acts: seq<Action>, k: nat, t: nat) {
    exists j: nat {:trigger acts[j]} :: j < k <= |acts| < |ss| && acts[j] == DoSender(t) && t in ss[j].senders
      && ss[j].senders[t].pc == TestWanted && ss[j].m.wanted
      && forall x: nat {:trigger acts[x]} :: j < x < k ==> !(acts[x].DoCall? && acts[x].t == t)
  }

  lemma FoundOn(ss: seq<State>, acts: seq<Action>, k: nat, t: nat)
    requires k < |acts| && !(acts[k].DoCall? && acts[k].t == t)
    ensures FoundLow(ss, acts, k, t) ==> FoundLow(ss, acts, k + 1, t)
    ensures FoundWanted(ss, acts, k, t) ==> FoundWanted(ss, acts, k + 1, t)
  {
  }

  lemma FoundNow(ss: seq<State>, acts: seq<Action>, k: nat, t: nat)
    requires k < |acts| < |ss| && acts[k] == DoSender(t) && t in ss[k].senders
    ensures ss[k].senders[t].pc == TestFlag && !ss[k].m.Flag(ss[k].senders[t].src.Async?)
      ==> FoundLow(ss, acts, k + 1, t)
    ensures ss[k].senders[t].pc == TestWanted && ss[k].m.wanted ==> FoundWanted(ss, acts, k + 1, t)
  {
  }

  /** What a call that has come this far has found. */
  ghost predicate PastOk(ss: seq<State>, acts: seq<Action>, k: nat, t: nat, pc: SenderPc) {
    && (pc != Mark && pc != TestFlag && pc != Return ==> FoundLow(ss, acts, k, t))
    && (pc == ClearSkipped || pc == Write ==> FoundWanted(ss, acts, k, t))
  }

  /** How a sender comes from one access to the next. */
  lemma SenderMoves(m: Memory, d: Sender)
    ensures var pc := SenderStep(m, d).1;
      && pc != Mark && (pc == TestFlag ==> d.pc == Mark) && (d.pc == Mark ==> pc == TestFlag || pc == Return)
      && (d.pc == TestFlag ==> pc == Return || !m.Flag(d.src.Async?))
      && (d.pc == TestWanted ==> pc == Return || m.wanted)
      && (pc == ClearSkipped || pc == Write ==> d.pc == TestWanted || d.pc == ClearSkipped)
      && (d.pc == Return ==> pc == Return)
  {
  }

  lemma {:induction false} PastIsOk(ss: seq<State>, acts: seq<Action>, k: nat, t: nat)
    requires IsRun(ss, acts) && Init(ss[0]) && k < |ss| && t in ss[k].senders
    ensures PastOk(ss, acts, k, t, ss[k].senders[t].pc)
  {
    if k > 0 {
      var i := k - 1;
      if acts[i] == DoSender(t) {
        PastIsOk(ss, acts, i, t);
        SenderMoves(ss[i].m, ss[i].senders[t]);
        FoundOn(ss, acts, i, t);
        FoundNow(ss, acts, i, t);
      } else if !(acts[i].DoCall? && acts[i].t == t) {
        PastIsOk(ss, acts, i, t);
        FoundOn(ss, acts, i, t);
      }
    }
  }

  lemma SenderWrites(m: Memory, d: Sender)
    ensures var m' := SenderStep(m, d).0; m'.pipe == m.pipe || (m'.pipe == m.pipe + 1 && d.pc == Write)
  {
  }

  lemma LoopReads(m: Memory, pc: LoopPc)
    ensures LoopStep(m, pc).0.pipe <= m.pipe
  {
  }

  /** Nobody but a sender puts bytes into the pipe. */
  lemma PipeGrows(s: State, a: Action)
    requires Enabled(s, a) && Next(s, a).m.pipe > s.m.pipe
    ensures a.DoSender? && s.senders[a.t].pc == Write && Next(s, a).m.pipe == s.m.pipe + 1
  {
    match a
    case DoCall(_, _) =>
    case DoSender(t) => SenderWrites(s.m, s.senders[t]);
    case DoLoop(_) => LoopReads(s.m, s.loop);
  }

  /** No idle wake-ups: in every run, a byte is only written by a call that has found its flag not raised and a wake-up
      wanted. */
  lemma WritesForCause(ss: seq<State>, acts: seq<Action>, k: nat)
    requires IsRun(ss, acts) && Init(ss[0]) && k < |acts| && ss[k + 1].m.pipe > ss[k].m.pipe
    ensures acts[k].DoSender? && FoundLow(ss, acts, k, acts[k].t) && FoundWanted(ss, acts, k, acts[k].t)
    ensures ss[k + 1].m.pipe == ss[k].m.pipe + 1
  {
    PipeGrows(ss[k], acts[k]);
    PastIsOk(ss, acts, k, acts[k].t);
  }

  // ----- the loop comes to sleep

  /** This iteration of the loop takes a byte or the note of a skip, if there is any. */
  predicate Takes(m: Memory, pc: LoopPc) {
    match pc
    case Running => true
    case TestSkipped => true
    case Poll(block) => block || m.pipe > 0 || m.skipped
    case Polled(r) => (r && m.pipe > 0) || m.skipped
    case Recheck(r) => (r && m.pipe > 0) || m.skipped
    case Invoke(r, c) => (r && m.pipe > 0) || (c && m.skipped)
    case ReadPipe(r) => (r && m.pipe > 0) || m.skipped
    case ResetSkipped => m.skipped
    case _ => false
  }

  /** Upper bound on the loop's steps to the end of this iteration. */
  function Tail(signals: nat, asyncs: nat, pc: LoopPc): nat {
    var a, s := 2 * asyncs + 3, 2 * signals;
    match pc
    case Feed(async, i) => 2 * i + 2 + (if async then 0 else a)
    case Scan(async, k) => 2 * k + 1 + (if async then 0 else a)
    case Reset(async) => if async then a - 1 else s + a + 2
    case Test(async) => if async then a else s + a + 3
    case ResetSkipped => s + a + 4
    case ReadPipe(_) => s + a + 5
    case Invoke(_, _) => s + a + 6
    case Recheck(_) => s + a + 7
    case Polled(_) => s + a + 8
    case Poll(_) => s + a + 9
    case TestSkipped => s + a + 10
    case Running => s + a + 11
  }

  /** How many more iterations there are at most after this one, when no sender moves. */
  function Iterations(m: Memory, pc: LoopPc): nat {
    m.pipe + (if m.skipped then 1 else 0) + if Takes(m, pc) then 0 else 1
  }

  function Times(k: nat, n: nat): nat {
    if k == 0 then 0 else n + Times(k - 1, n)
  }

  /** Upper bound on the loop's steps until it sleeps, when no sender moves: one iteration for each byte and the
      skip. */
  function SleepRank(m: Memory, pc: LoopPc): nat {
    Tail(|m.signalled|, |m.sent|, pc)
    + Times(Iterations(m, pc), Tail(|m.signalled|, |m.sent|, Running))
  }

  /** Bytes and skips to take only get fewer, and by the end of an iteration that takes some they have. */
  lemma Credits(m: Memory, pc: LoopPc)
    requires Control(m, pc) && !(pc == Poll(true) && m.pipe == 0)
    ensures var (m', pc') := LoopStep(m, pc);
      || (Iterations(m', pc') <= Iterations(m, pc) && (pc'.Running? ==> Iterations(m', pc') < Iterations(m, pc)))
      || (pc' == Poll(true) && m'.pipe == 0)
  {
  }

  lemma {:induction false} Fewer(a: nat, b: nat, n: nat)
    requires a <= b
    ensures Times(a, n) + (if a < b then n else 0) <= Times(b, n)
  {
    if a < b {
      Fewer(a, b - 1, n);
    }
  }

  lemma TailDecreases(m: Memory, pc: LoopPc)
    requires Control(m, pc)
    ensures var pc' := LoopStep(m, pc).1; var (s, a) := (|m.signalled|, |m.sent|);
      0 < Tail(s, a, pc) && (pc'.Running? || Tail(s, a, pc') < Tail(s, a, pc))
  {
  }

  lemma SleepNears(m: Memory, pc: LoopPc)
    requires Control(m, pc) && !(pc == Poll(true) && m.pipe == 0)
    ensures var (m', pc') := LoopStep(m, pc);
      SleepRank(m', pc') < SleepRank(m, pc) || (pc' == Poll(true) && m'.pipe == 0)
  {
    var (m', pc') := LoopStep(m, pc);
    CountsStay(m, pc);
    TailDecreases(m, pc);
    Credits(m, pc);
    if !(pc' == Poll(true) && m'.pipe == 0) {
      Fewer(Iterations(m', pc'), Iterations(m, pc), Tail(|m.signalled|, |m.sent|, Running));
    }
  }

  lemma TailPositive(m: Memory, pc: LoopPc)
    ensures Tail(|m.signalled|, |m.sent|, pc) > 0
  {
  }

  lemma StepInv(s: State, a: Action)
    requires Inv(s) && Enabled(s, a)
    ensures Inv(Next(s, a))
  {
    match a
    case DoCall(t, src) => CallInv(s, t, src);
    case DoSender(t) => SenderInv(s, t);
    case DoLoop(b) => LoopInv(s, b);
  }

  /** The loop comes to sleep: with no call in flight and none begun, it blocks on an empty pipe within a bounded number
      of steps, whatever bytes and skips it finds. */
  lemma {:induction false} FallsAsleep(ss: seq<State>, acts: seq<Action>)
    requires IsRun(ss, acts) && Inv(ss[0]) && ss[0].senders == map[] && forall a :: a in acts ==> a.DoLoop?
    requires |acts| >= SleepRank(ss[0].m, ss[0].loop)
    ensures exists k: nat :: k < |ss| && Quiescent(ss[k])
    decreases |acts|
  {
    TailPositive(ss[0].m, ss[0].loop);
    if Quiescent(ss[0]) {
      return;
    }
    assert acts[0] in acts;
    StepInv(ss[0], acts[0]);
    SleepNears(ss[0].m, ss[0].loop);
    RunTail(ss, acts);
    if Quiescent(ss[1]) {
      return;
    }
    FallsAsleep(ss[1..], acts[1..]);
    var k: nat :| k < |ss[1..]| && Quiescent(ss[1..][k]);
    assert Quiescent(ss[k + 1]);
  }

  // ----- one pass of pipecb

  /** pipecb is under way and has yet to come to this source. */
  predicate InPass(pc: LoopPc, async: bool, i: nat) {
    pc.ReadPipe? || WillTest(pc, async) || WillScan(pc, async, i)
  }

  /** The source is marked, and the pass under way has it still before it. */
  predicate DueInPass(s: State, async: bool, i: nat) {
    && i < s.m.Count(async) && s.m.Marked(SourceOf(async, i)) && InPass(s.loop, async, i)
    && (s.m.Flag(async) || WillScan(s.loop, async, i))
  }

  /** No step of anyone takes a source out of the pass but the one that feeds it. */
  lemma PassGoesOn(s: State, a: Action, async: bool, i: nat)
    requires Control(s.m, s.loop) && Enabled(s, a) && DueInPass(s, async, i)
    ensures DueInPass(Next(s, a), async, i) || Next(s, a).fed == s.fed + [SourceOf(async, i)]
  {
    match a
    case DoCall(_, _) =>
    case DoSender(t) => SenderKeepsMark(s.m, s.senders[t], SourceOf(async, i));
    case DoLoop(_) => LoopKeepsMark(s.m, s.loop, SourceOf(async, i));
  }

  /** In every interleaving, a source that is marked with its flag raised when pipecb starts, or before pipecb tests
      that flag, is fed by that very pass: before the loop is outside pipecb again, whatever senders do meanwhile. */
  lemma {:induction false} PassFeeds(ss: seq<State>, acts: seq<Action>, k: nat, j: nat, async: bool, i: nat)
    requires IsRun(ss, acts) && Init(ss[0]) && k <= j < |ss|
    requires DueInPass(ss[k], async, i) && ss[j].loop == Running
    ensures exists x :: k <= x < j && FedAt(ss, x, SourceOf(async, i))
    decreases j - k
  {
    RunInv(ss, acts, k);
    if k < j {
      PassGoesOn(ss[k], acts[k], async, i);
      if ss[k + 1].fed == ss[k].fed + [SourceOf(async, i)] {
        assert FedAt(ss, k, SourceOf(async, i));
      } else {
        PassFeeds(ss, acts, k + 1, j, async, i);
      }
    }
  }

  // ----- how soon a report is delivered

  /** This iteration of the loop is bound to feed the source. */
  predicate Sure(m: Memory, pc: LoopPc, async: bool, i: nat) {
    match pc
    case Polled(ready) => ready || m.skipped
    case Recheck(ready) => ready || m.skipped
    case Invoke(r, c) => r || c
    case Feed(_, _) => WillTest(pc, async) || WillScan(pc, async, i)
    case Scan(_, _) => WillTest(pc, async) || WillScan(pc, async, i)
    case Reset(_) => WillTest(pc, async)
    case Test(_) => WillTest(pc, async)
    case _ => true
  }

  function Rank(m: Memory, pc: LoopPc, async: bool, i: nat): nat {
    Tail(|m.signalled|, |m.sent|, pc)
    + if Sure(m, pc, async, i) then 0 else Tail(|m.signalled|, |m.sent|, Running)
  }

  /** The source is marked and that is on record: pipecb has yet to scan it, or its flag is raised, with a skip noted, a
      byte in the pipe, or its test by pipecb to come. */
  predicate OnRecord(m: Memory, pc: LoopPc, async: bool, i: nat) {
    && Control(m, pc) && i < m.Count(async) && m.Marked(SourceOf(async, i))
    && (WillScan(pc, async, i) || (m.Flag(async) && (m.skipped || m.pipe > 0 || WillTest(pc, async))))
  }

  lemma SureStays(m: Memory, pc: LoopPc, async: bool, i: nat)
    requires OnRecord(m, pc, async, i) && Sure(m, pc, async, i) && pc != Feed(async, i)
    ensures var (m', pc') := LoopStep(m, pc); Sure(m', pc', async, i) && !pc'.Running?
  {
  }

  lemma RankDecreases(m: Memory, pc: LoopPc, async: bool, i: nat)
    requires OnRecord(m, pc, async, i)
    ensures var (m', pc') := LoopStep(m, pc);
      pc == Feed(async, i) || Rank(m', pc', async, i) < Rank(m, pc, async, i)
  {
    CountsStay(m, pc);
    TailDecreases(m, pc);
    if Sure(m, pc, async, i) && pc != Feed(async, i) {
      SureStays(m, pc, async, i);
    }
  }

  /** A sender takes a recorded skip back, because it is about to write instead. */
  predicate TakesSkipBack(s: State, a: Action) {
    a.DoSender? && a.t in s.senders && s.senders[a.t].pc.ClearSkipped?
  }

  lemma StaysOnRecord(m: Memory, pc: LoopPc, async: bool, i: nat)
    requires OnRecord(m, pc, async, i) && pc != Feed(async, i)
    ensures var (m', pc') := LoopStep(m, pc);
      WillScan(pc', async, i) || (m'.Flag(async) && (m'.skipped || m'.pipe > 0 || WillTest(pc', async)))
  {
  }

  /** Other senders raise flags, note skips and write bytes, and take none of these back. */
  lemma SenderOnlyAdds(m: Memory, d: Sender)
    requires !d.pc.ClearSkipped?
    ensures var m' := SenderStep(m, d).0;
      && |m'.sent| == |m.sent| && |m'.signalled| == |m.signalled| && (m.skipped ==> m'.skipped) && m.pipe <= m'.pipe
      && (m.sigPending ==> m'.sigPending) && (m.asyncPending ==> m'.asyncPending)
  {
  }

  lemma RankFalls(m: Memory, m': Memory, pc: LoopPc, async: bool, i: nat)
    requires |m'.sent| == |m.sent| && |m'.signalled| == |m.signalled| && (m.skipped ==> m'.skipped)
    ensures Rank(m', pc, async, i) <= Rank(m, pc, async, i)
  {
  }

  /** Each step of the loop feeds the source or brings it closer, and no step of anyone puts it off but one that takes a
      recorded skip back. */
  lemma LoopProgress(s: State, a: Action, async: bool, i: nat)
    requires OnRecord(s.m, s.loop, async, i) && Enabled(s, a) && !TakesSkipBack(s, a)
    ensures var s' := Next(s, a);
      || s'.fed == s.fed + [SourceOf(async, i)]
      || (OnRecord(s'.m, s'.loop, async, i)
          && Rank(s'.m, s'.loop, async, i) <= Rank(s.m, s.loop, async, i) - if a.DoLoop? then 1 else 0)
  {
    match a
    case DoCall(_, _) =>
    case DoSender(t) =>
      SenderControl(s.m, s.senders[t], s.loop);
      SenderKeepsMark(s.m, s.senders[t], SourceOf(async, i));
      SenderOnlyAdds(s.m, s.senders[t]);
      RankFalls(s.m, SenderStep(s.m, s.senders[t]).0, s.loop, async, i);
    case DoLoop(_) =>
      LoopControl(s.m, s.loop);
      RankDecreases(s.m, s.loop, async, i);
      LoopKeepsMark(s.m, s.loop, SourceOf(async, i));
      if s.loop != Feed(async, i) {
        StaysOnRecord(s.m, s.loop, async, i);
      }
  }

  function LoopSteps(acts: seq<Action>): nat {
    if acts == [] then 0 else (if acts[0].DoLoop? then 1 else 0) + LoopSteps(acts[1..])
  }

  /** With no call in flight everything is on record. */
  lemma NobodyInFlight(s: State, async: bool, i: nat)
    requires Inv(s) && s.senders == map[] && i < s.m.Count(async) && s.m.Marked(SourceOf(async, i))
    ensures OnRecord(s.m, s.loop, async, i) && forall timeout :: Enabled(s, DoLoop(timeout))
  {
    assert FlagCovered(s.m, s.loop, Committed(s.senders), async);
    assert MarksCovered(s, async);
    assert MarkCovered(s.m, s.loop, Raising(s.senders, async), async, i);
  }

  lemma RankPositive(m: Memory, pc: LoopPc, async: bool, i: nat)
    ensures Rank(m, pc, async, i) > 0
  {
  }

  /** A marked source whose flag is on record is fed within Rank steps of the loop (less than two iterations), through
      any calls and any steps of senders between them that take no recorded skip back. */
  lemma {:induction false} FedWithinRank(ss: seq<State>, acts: seq<Action>, async: bool, i: nat)
    requires IsRun(ss, acts) && OnRecord(ss[0].m, ss[0].loop, async, i)
    requires forall k {:trigger acts[k]} :: 0 <= k < |acts| ==> !TakesSkipBack(ss[k], acts[k])
    requires LoopSteps(acts) >= Rank(ss[0].m, ss[0].loop, async, i)
    ensures exists k :: FedAt(ss, k, SourceOf(async, i))
    decreases |acts|
  {
    var src := SourceOf(async, i);
    RankPositive(ss[0].m, ss[0].loop, async, i);
    assert !TakesSkipBack(ss[0], acts[0]);
    LoopProgress(ss[0], acts[0], async, i);
    if ss[1].fed == ss[0].fed + [src] {
      assert FedAt(ss, 0, src);
    } else {
      RunTail(ss, acts);
      forall k | 0 <= k < |acts[1..]| ensures !TakesSkipBack(ss[1..][k], acts[1..][k]) {
        assert acts[1..][k] == acts[k + 1] && ss[1..][k] == ss[k + 1];
      }
      FedWithinRank(ss[1..], acts[1..], async, i);
      var k: nat :| FedAt(ss[1..], k, src);
      assert FedAt(ss, k + 1, src);
    }
  }

  // ----- one call, and one pass of pipecb, by itself

  function CallRank(pc: SenderPc): nat {
    match pc
    case Mark => 7
    case TestFlag => 6
    case RaiseFlag => 5
    case SetSkipped => 4
    case TestWanted => 3
    case ClearSkipped => 2
    case Write => 1
    case Return => 0
  }

  /** A call that runs to its end while nobody else moves. */
  function Alone(m: Memory, d: Sender): Memory
    decreases CallRank(d.pc)
  {
    var (m', pc) := SenderStep(m, d);
    if CallRank(pc) == 0 || CallRank(pc) >= CallRank(d.pc) then m' else Alone(m', Sender(d.src, pc))
  }

  lemma AloneStep(m: Memory, d: Sender)
    ensures var (m', pc) := SenderStep(m, d);
      CallRank(pc) < CallRank(d.pc) ==> Alone(m, d) == if pc == Return then m' else Alone(m', Sender(d.src, pc))
  {
  }

  lemma RaisedAlone(m: Memory, src: Source)
    ensures Alone(m, Sender(src, SetSkipped)) ==
      if !m.wanted then m.(skipped := true)
      else m.(skipped := false, pipe := if !m.eventfd && m.pipe >= m.capacity then m.pipe else m.pipe + 1)
  {
    var m1 := m.(skipped := true);
    AloneStep(m, Sender(src, SetSkipped));
    AloneStep(m1, Sender(src, TestWanted));
    if m.wanted {
      AloneStep(m1, Sender(src, ClearSkipped));
    }
  }

  /** By itself, a call marks its source. If the flag was down it raises it, and leaves exactly one wake-up: a byte if
      one is wanted, and the pipe takes it, and else the note of a skip. */
  lemma CallAlone(m: Memory, src: Source)
    requires m.Known(src)
    ensures var m1 := m.SetMark(src, true);
      var m2 := m1.SetFlag(src.Async?, true);
      Alone(m, Sender(src, Mark)) ==
        if m.Flag(src.Async?) then m1
        else if !m.wanted then m2.(skipped := true)
        else m2.(skipped := false, pipe := if !m.eventfd && m.pipe >= m.capacity then m.pipe else m.pipe + 1)
  {
    var m1 := m.SetMark(src, true);
    AloneStep(m, Sender(src, Mark));
    AloneStep(m1, Sender(src, TestFlag));
    if !m.Flag(src.Async?) {
      AloneStep(m1, Sender(src, RaiseFlag));
      RaisedAlone(m1.SetFlag(src.Async?, true), src);
    }
  }

  lemma SenderKeepsPipe(m: Memory, d: Sender)
    ensures var m' := SenderStep(m, d).0;
      m'.eventfd == m.eventfd && m'.capacity == m.capacity
      && (!m.eventfd && m.pipe <= m.capacity ==> m'.pipe <= m.capacity)
  {
  }

  lemma LoopKeepsPipe(m: Memory, pc: LoopPc)
    ensures var m' := LoopStep(m, pc).0; m'.eventfd == m.eventfd && m'.capacity == m.capacity && m'.pipe <= m.pipe
  {
  }

  lemma StepKeepsPipe(s: State, a: Action)
    requires Enabled(s, a)
    ensures var m' := Next(s, a).m;
      && m'.eventfd == s.m.eventfd && m'.capacity == s.m.capacity
      && (!s.m.eventfd && s.m.pipe <= s.m.capacity ==> m'.pipe <= s.m.capacity)
  {
    match a
    case DoCall(_, _) =>
    case DoSender(t) => SenderKeepsPipe(s.m, s.senders[t]);
    case DoLoop(_) => LoopKeepsPipe(s.m, s.loop);
  }

  /** In every run, a pipe never holds more than its capacity. */
  lemma {:induction false} PipeBounded(ss: seq<State>, acts: seq<Action>, k: nat)
    requires IsRun(ss, acts) && Init(ss[0]) && k < |ss|
    ensures ss[k].m.eventfd == ss[0].m.eventfd && ss[k].m.capacity == ss[0].m.capacity
    ensures !ss[0].m.eventfd ==> ss[k].m.pipe <= ss[0].m.capacity
  {
    if k > 0 {
      PipeBounded(ss, acts, k - 1);
      StepKeepsPipe(ss[k - 1], acts[k - 1]);
    }
  }

  /** By itself, an iteration comes to pipecb exactly when there is a byte or the note of a skip, and does not block
      when there is such a note. */
  lemma IterationAlone(m: Memory)
    ensures var (m1, p1) := LoopStep(m, Running);
      var (m2, p2) := LoopStep(m1, p1);
      var (m3, p3) := LoopStep(m2, p2);
      var (m4, p4) := LoopStep(m3, p3);
      var (m5, p5) := LoopStep(m4, p4);
      var (m6, p6) := LoopStep(m5, p5);
      && p2 == Poll(!m.skipped) && m6 == m.(wanted := false)
      && p6 == if m.pipe > 0 || m.skipped then ReadPipe(m.pipe > 0) else Running
  {
  }

  predicate InPipecb(pc: LoopPc) {
    pc.ReadPipe? || pc.ResetSkipped? || pc.Test? || pc.Reset? || pc.Scan? || pc.Feed?
  }

  /** What pipecb makes of the memory, and what it feeds, from this access on, while nobody else moves. */
  function PassFrom(m: Memory, pc: LoopPc): (Memory, seq<Source>)
    requires Control(m, pc) && InPipecb(pc)
    decreases Tail(|m.signalled|, |m.sent|, pc)
  {
    LoopControl(m, pc);
    CountsStay(m, pc);
    TailDecreases(m, pc);
    var (m', pc') := LoopStep(m, pc);
    var fed := if pc.Feed? then [SourceOf(pc.async, pc.i)] else [];
    if !InPipecb(pc') then (m', fed)
    else
      var (m'', more) := PassFrom(m', pc');
      (m'', fed + more)
  }

  /** The sources of a kind below k that are marked, the highest first. */
  function MarkedBelow(marks: seq<bool>, async: bool, k: nat): seq<Source>
    requires k <= |marks|
  {
    if k == 0 then []
    else (if marks[k - 1] then [SourceOf(async, k - 1)] else []) + MarkedBelow(marks, async, k - 1)
  }

  function Marks(m: Memory, async: bool): seq<bool> {
    if async then m.sent else m.signalled
  }

  /** The marks of a kind below k are cleared. */
  function ClearedBelow(m: Memory, async: bool, k: nat): Memory
    requires k <= m.Count(async)
  {
    var marks := seq(k, _ => false) + Marks(m, async)[k..];
    if async then m.(sent := marks) else m.(signalled := marks)
  }

  /** The scan of a kind from k on, and what follows it. */
  function AfterScanning(m: Memory, async: bool): (Memory, seq<Source>)
    requires Control(m, AfterScan(async))
  {
    if async then (m, []) else PassFrom(m, AfterScan(async))
  }

  lemma {:induction false} MarkedSame(a: seq<bool>, b: seq<bool>, async: bool, k: nat)
    requires k <= |a| && k <= |b| && forall i {:trigger a[i]} :: 0 <= i < k ==> a[i] == b[i]
    ensures MarkedBelow(a, async, k) == MarkedBelow(b, async, k)
  {
    if k > 0 {
      MarkedSame(a, b, async, k - 1);
      assert a[k - 1] == b[k - 1];
    }
  }

  lemma ClearOne(m: Memory, async: bool, k: nat)
    requires 0 < k <= m.Count(async)
    ensures var m' := m.SetMark(SourceOf(async, k - 1), false);
      ClearedBelow(m', async, k - 1) == ClearedBelow(m, async, k)
      && MarkedBelow(Marks(m', async), async, k - 1) == MarkedBelow(Marks(m, async), async, k - 1)
    ensures !Marks(m, async)[k - 1] ==> ClearedBelow(m, async, k - 1) == ClearedBelow(m, async, k)
  {
    var marks := Marks(m, async);
    var m' := m.SetMark(SourceOf(async, k - 1), false);
    MarkedSame(marks, Marks(m', async), async, k - 1);
    assert seq(k, _ => false) + marks[k..] == seq(k - 1, _ => false) + Marks(m', async)[k - 1..];
    if !marks[k - 1] {
      assert seq(k, _ => false) + marks[k..] == seq(k - 1, _ => false) + marks[k - 1..];
    }
  }

  lemma PassStep(m: Memory, pc: LoopPc)
    requires Control(m, pc) && InPipecb(pc)
    ensures var (m', pc') := LoopStep(m, pc);
      InPipecb(pc') ==>
        Control(m', pc') && PassFrom(m, pc)
          == (PassFrom(m', pc').0, (if pc.Feed? then [SourceOf(pc.async, pc.i)] else []) + PassFrom(m', pc').1)
  {
    LoopControl(m, pc);
  }

  lemma QuietStep(m: Memory, pc: LoopPc)
    requires Control(m, pc) && InPipecb(pc) && !pc.Feed? && InPipecb(LoopStep(m, pc).1)
    ensures var (m', pc') := LoopStep(m, pc); Control(m', pc') && PassFrom(m, pc) == PassFrom(m', pc')
  {
    PassStep(m, pc);
    var (m', pc') := LoopStep(m, pc);
    assert [] + PassFrom(m', pc').1 == PassFrom(m', pc').1;
  }

  lemma NothingMore()
    ensures forall a: seq<Source> {:trigger a + []} :: a + [] == a && [] + a == a
  {
  }

  lemma Joined(a: seq<Source>, b: seq<Source>, c: seq<Source>)
    ensures a + (b + c) == a + b + c
  {
  }

  /** What the scan of a kind from k on comes to. */
  ghost predicate Scans(m: Memory, async: bool, k: nat)
    requires Control(m, Scan(async, k))
  {
    var m1 := ClearedBelow(m, async, k);
    && Control(m1, AfterScan(async))
    && PassFrom(m, Scan(async, k))
       == (AfterScanning(m1, async).0, MarkedBelow(Marks(m, async), async, k) + AfterScanning(m1, async).1)
  }

  lemma ScanNothing(m: Memory, async: bool)
    requires Control(m, Scan(async, 0))
    ensures Scans(m, async, 0)
  {
    assert seq(0, _ => false) + Marks(m, async)[0..] == Marks(m, async);
    assert ClearedBelow(m, async, 0) == m;
    if !async {
      QuietStep(m, Scan(async, 0));
    }
    NothingMore();
  }

  lemma FeedAlone(m: Memory, async: bool, i: nat)
    requires Control(m, Feed(async, i))
    ensures var m1 := m.SetMark(SourceOf(async, i), false);
      Control(m1, Scan(async, i)) && PassFrom(m, Feed(async, i))
        == (PassFrom(m1, Scan(async, i)).0, [SourceOf(async, i)] + PassFrom(m1, Scan(async, i)).1)
  {
    PassStep(m, Feed(async, i));
  }

  lemma ScanMarked(m: Memory, async: bool, k: nat)
    requires Control(m, Scan(async, k)) && k > 0 && Marks(m, async)[k - 1]
    requires var m1 := m.SetMark(SourceOf(async, k - 1), false);
      Control(m1, Scan(async, k - 1)) && Scans(m1, async, k - 1)
    ensures Scans(m, async, k)
  {
    var m1 := m.SetMark(SourceOf(async, k - 1), false);
    ClearOne(m, async, k);
    QuietStep(m, Scan(async, k));
    FeedAlone(m, async, k - 1);
    var src, more := SourceOf(async, k - 1), AfterScanning(ClearedBelow(m, async, k), async).1;
    assert LoopStep(m, Scan(async, k)) == (m, Feed(async, k - 1));
    assert MarkedBelow(Marks(m, async), async, k) == [src] + MarkedBelow(Marks(m1, async), async, k - 1);
    assert PassFrom(m1, Scan(async, k - 1)).1 == MarkedBelow(Marks(m1, async), async, k - 1) + more;
    Joined([src], MarkedBelow(Marks(m1, async), async, k - 1), more);
  }

  lemma ScanUnmarked(m: Memory, async: bool, k: nat)
    requires Control(m, Scan(async, k)) && k > 0 && !Marks(m, async)[k - 1] && Scans(m, async, k - 1)
    ensures Scans(m, async, k)
  {
    ClearOne(m, async, k);
    assert LoopStep(m, Scan(async, k)) == (m, Scan(async, k - 1));
    QuietStep(m, Scan(async, k));
    NothingMore();
    assert MarkedBelow(Marks(m, async), async, k) == MarkedBelow(Marks(m, async), async, k - 1);
  }

  lemma {:induction false} ScanAlone(m: Memory, async: bool, k: nat)
    requires Control(m, Scan(async, k))
    ensures Scans(m, async, k)
    decreases k
  {
    if k == 0 {
      ScanNothing(m, async);
    } else if Marks(m, async)[k - 1] {
      ScanAlone(m.SetMark(SourceOf(async, k - 1), false), async, k - 1);
      ScanMarked(m, async, k);
    } else {
      ScanAlone(m, async, k - 1);
      ScanUnmarked(m, async, k);
    }
  }

  /** What pipecb makes of one kind of sources: if their flag is raised, it lowers it and takes all marks. */
  function Served(m: Memory, async: bool): Memory {
    if m.Flag(async) then ClearedBelow(m.SetFlag(async, false), async, m.Count(async)) else m
  }

  function ServedFeeds(m: Memory, async: bool): seq<Source> {
    if m.Flag(async) then MarkedBelow(Marks(m, async), async, m.Count(async)) else []
  }

  lemma TestAlone(m: Memory, async: bool)
    requires Control(m, Test(async))
    ensures Control(Served(m, async), AfterScan(async))
    ensures var (m', more) := AfterScanning(Served(m, async), async);
      PassFrom(m, Test(async)) == (m', ServedFeeds(m, async) + more)
  {
    if m.Flag(async) {
      var m1 := m.SetFlag(async, false);
      QuietStep(m, Test(async));
      QuietStep(m, Reset(async));
      ScanAlone(m1, async, m.Count(async));
    } else if async {
      NothingMore();
    } else {
      QuietStep(m, Test(false));
      assert [] + PassFrom(m, Test(true)).1 == PassFrom(m, Test(true)).1;
    }
  }

  lemma ServedBoth(m: Memory)
    requires Control(m, Test(false))
    ensures PassFrom(m, Test(false)) == (Served(Served(m, false), true), ServedFeeds(m, false) + ServedFeeds(m, true))
  {
    var m1 := Served(m, false);
    TestAlone(m, false);
    TestAlone(m1, true);
    assert ServedFeeds(m1, true) + [] == ServedFeeds(m1, true) == ServedFeeds(m, true);
  }

  /** Up to four bytes fewer, or the whole counter. */
  function Drained(m: Memory, r: bool): Memory {
    m.(pipe := if !r then m.pipe else if m.eventfd || m.pipe <= 4 then 0 else m.pipe - 4)
  }

  lemma Drains(m: Memory, r: bool)
    ensures LoopStep(m, ReadPipe(r)) == (Drained(m, r), ResetSkipped)
    ensures LoopStep(Drained(m, r), ResetSkipped) == (Drained(m, r).(skipped := false), Test(false))
  {
  }

  /** By itself, pipecb takes up to four bytes from a readable pipe, or the whole counter, drops the note of a skip, and
      feeds exactly the marked sources of each kind whose flag is raised: signals first, the highest first; their marks
      and flags are gone then. */
  lemma PipecbAlone(m: Memory, r: bool)
    requires Control(m, ReadPipe(r))
    ensures var m1 := Drained(m, r).(skipped := false);
      PassFrom(m, ReadPipe(r)) == (Served(Served(m1, false), true), ServedFeeds(m1, false) + ServedFeeds(m1, true))
  {
    var m0 := Drained(m, r);
    Drains(m, r);
    QuietStep(m, ReadPipe(r));
    QuietStep(m0, ResetSkipped);
    ServedBoth(m0.(skipped := false));
  }

  // ----- delivery when senders keep moving, whatever they take back

  /** The source is marked, and its flag is raised or pipecb has yet to scan it. */
  predicate Due(m: Memory, pc: LoopPc, async: bool, i: nat) {
    Control(m, pc) && i < m.Count(async) && m.Marked(SourceOf(async, i)) && (m.Flag(async) || WillScan(pc, async, i))
  }

  /** A due source stays due until it is fed. */
  lemma DueStays(s: State, a: Action, async: bool, i: nat)
    requires Due(s.m, s.loop, async, i) && Enabled(s, a)
    ensures Due(Next(s, a).m, Next(s, a).loop, async, i) || Next(s, a).fed == s.fed + [SourceOf(async, i)]
  {
    match a
    case DoCall(_, _) =>
    case DoSender(t) =>
      SenderControl(s.m, s.senders[t], s.loop);
      SenderKeepsMark(s.m, s.senders[t], SourceOf(async, i));
      SenderKeepsFlag(s.m, s.senders[t]);
    case DoLoop(_) =>
      LoopControl(s.m, s.loop);
      LoopKeepsMark(s.m, s.loop, SourceOf(async, i));
  }

  /** A record that no sender can take back: pipecb is on its way to the source, or there is a byte in the pipe. */
  predicate Firm(m: Memory, pc: LoopPc, async: bool, i: nat) {
    Due(m, pc, async, i) && (WillScan(pc, async, i) || m.pipe > 0 || WillTest(pc, async))
  }

  /** This iteration feeds the source, whatever becomes of the note of a skip. */
  predicate FirmSure(pc: LoopPc, async: bool, i: nat) {
    match pc
    case Polled(ready) => ready
    case Recheck(ready) => ready
    case Invoke(r, c) => r || c
    case Feed(_, _) => WillTest(pc, async) || WillScan(pc, async, i)
    case Scan(_, _) => WillTest(pc, async) || WillScan(pc, async, i)
    case Reset(_) => WillTest(pc, async)
    case Test(_) => WillTest(pc, async)
    case _ => true
  }

  function FirmRank(m: Memory, pc: LoopPc, async: bool, i: nat): nat {
    Tail(|m.signalled|, |m.sent|, pc)
    + if FirmSure(pc, async, i) then 0 else Tail(|m.signalled|, |m.sent|, Running)
  }

  lemma FirmLoop(m: Memory, pc: LoopPc, async: bool, i: nat)
    requires Firm(m, pc, async, i) && pc != Feed(async, i)
    ensures var (m', pc') := LoopStep(m, pc);
      && (WillScan(pc', async, i) || m'.pipe > 0 || WillTest(pc', async))
      && (FirmSure(pc, async, i) ==> FirmSure(pc', async, i) && !pc'.Running?)
  {
  }

  /** Each step of the loop feeds the source or brings it closer, and no step of anyone puts it off. */
  lemma FirmProgress(s: State, a: Action, async: bool, i: nat)
    requires Firm(s.m, s.loop, async, i) && Enabled(s, a)
    ensures var s' := Next(s, a);
      || s'.fed == s.fed + [SourceOf(async, i)]
      || (Firm(s'.m, s'.loop, async, i)
          && FirmRank(s'.m, s'.loop, async, i) <= FirmRank(s.m, s.loop, async, i) - if a.DoLoop? then 1 else 0)
  {
    DueStays(s, a, async, i);
    match a
    case DoCall(_, _) =>
    case DoSender(t) => SenderKeepsFlag(s.m, s.senders[t]);
    case DoLoop(_) =>
      CountsStay(s.m, s.loop);
      TailDecreases(s.m, s.loop);
      if s.loop != Feed(async, i) {
        FirmLoop(s.m, s.loop, async, i);
      }
  }

  /** More than the loop's steps of two iterations. */
  function Round2(m: Memory): nat {
    2 * Tail(|m.signalled|, |m.sent|, Running)
  }

  lemma RanksBounded(m: Memory, pc: LoopPc, async: bool, i: nat)
    requires Control(m, pc)
    ensures FirmRank(m, pc, async, i) <= Round2(m) && Rank(m, pc, async, i) <= Round2(m)
  {
  }

  lemma CountsSame(s: State, a: Action)
    requires Enabled(s, a)
    ensures Round2(Next(s, a).m) == Round2(s.m) && Next(s, a).m.capacity == s.m.capacity
  {
    match a
    case DoCall(_, _) =>
    case DoSender(t) => SenderKeepsFlag(s.m, s.senders[t]);
    case DoLoop(_) => CountsStay(s.m, s.loop);
  }

  /** The loop's steps before sender t takes its next one. */
  function Wait(acts: seq<Action>, t: nat): nat {
    if acts == [] || acts[0] == DoSender(t) then 0 else (if acts[0].DoLoop? then 1 else 0) + Wait(acts[1..], t)
  }

  /** Every call in flight takes its next step before the loop has taken more than d. */
  ghost predicate Prompt(ss: seq<State>, acts: seq<Action>, d: nat)
    requires |ss| == |acts| + 1
  {
    && (forall t {:trigger Wait(acts, t)} :: t in ss[0].senders ==> Wait(acts, t) <= d)
    && (acts != [] ==> Prompt(ss[1..], acts[1..], d))
  }

  /** The source is fed in the run. */
  ghost predicate IsFed(ss: seq<State>, src: Source) {
    exists k: nat :: FedAt(ss, k, src)
  }

  lemma FedLater(ss: seq<State>, acts: seq<Action>, src: Source)
    requires IsRun(ss, acts) && acts != []
    ensures ss[1].fed == ss[0].fed + [src] || IsFed(ss[1..], src) ==> IsFed(ss, src)
  {
    if ss[1].fed == ss[0].fed + [src] {
      assert FedAt(ss, 0, src);
    } else if IsFed(ss[1..], src) {
      var k: nat :| FedAt(ss[1..], k, src);
      assert FedAt(ss, k + 1, src);
    }
  }

  lemma {:induction false} FirmFed(ss: seq<State>, acts: seq<Action>, async: bool, i: nat)
    requires IsRun(ss, acts) && Firm(ss[0].m, ss[0].loop, async, i)
    requires LoopSteps(acts) >= FirmRank(ss[0].m, ss[0].loop, async, i)
    ensures IsFed(ss, SourceOf(async, i))
    decreases |acts|
  {
    var src := SourceOf(async, i);
    TailPositive(ss[0].m, ss[0].loop);
    FirmProgress(ss[0], acts[0], async, i);
    RunTail(ss, acts);
    if ss[1].fed != ss[0].fed + [src] {
      FirmFed(ss[1..], acts[1..], async, i);
    }
    FedLater(ss, acts, src);
  }

  /** A sender about to write: its byte makes the record firm. */
  lemma {:induction false} WriterFed(ss: seq<State>, acts: seq<Action>, t: nat, async: bool, i: nat)
    requires IsRun(ss, acts) && Due(ss[0].m, ss[0].loop, async, i) && t in ss[0].senders && ss[0].senders[t].pc.Write?
    requires LoopSteps(acts) >= Wait(acts, t) + Round2(ss[0].m)
    ensures IsFed(ss, SourceOf(async, i))
    decreases |acts|
  {
    var src := SourceOf(async, i);
    TailPositive(ss[0].m, Running);
    DueStays(ss[0], acts[0], async, i);
    CountsSame(ss[0], acts[0]);
    RunTail(ss, acts);
    if ss[1].fed != ss[0].fed + [src] {
      if acts[0] == DoSender(t) {
        RanksBounded(ss[1].m, ss[1].loop, async, i);
        FirmFed(ss[1..], acts[1..], async, i);
      } else {
        WriterFed(ss[1..], acts[1..], t, async, i);
      }
    }
    FedLater(ss, acts, src);
  }

  /** On record, as long as calls keep moving: a skip that is taken back is followed by a byte. */
  lemma {:induction false} RecordFed(ss: seq<State>, acts: seq<Action>, d: nat, async: bool, i: nat)
    requires IsRun(ss, acts) && Prompt(ss, acts, d) && OnRecord(ss[0].m, ss[0].loop, async, i)
    requires LoopSteps(acts) >= Rank(ss[0].m, ss[0].loop, async, i) + d + Round2(ss[0].m)
    ensures IsFed(ss, SourceOf(async, i))
    decreases |acts|
  {
    var src := SourceOf(async, i);
    TailPositive(ss[0].m, Running);
    CountsSame(ss[0], acts[0]);
    DueStays(ss[0], acts[0], async, i);
    RunTail(ss, acts);
    if ss[1].fed != ss[0].fed + [src] {
      if TakesSkipBack(ss[0], acts[0]) {
        assert Wait(acts[1..], acts[0].t) <= d;
        WriterFed(ss[1..], acts[1..], acts[0].t, async, i);
      } else {
        LoopProgress(ss[0], acts[0], async, i);
        RecordFed(ss[1..], acts[1..], d, async, i);
      }
    }
    FedLater(ss, acts, src);
  }

  /** A sender about to note a skip or to write. */
  lemma {:induction false} CommittedFed(ss: seq<State>, acts: seq<Action>, d: nat, t: nat, async: bool, i: nat)
    requires IsRun(ss, acts) && Prompt(ss, acts, d) && Due(ss[0].m, ss[0].loop, async, i)
    requires t in ss[0].senders && OnPipe(ss[0].senders[t].pc)
    requires LoopSteps(acts) >= Wait(acts, t) + d + 2 * Round2(ss[0].m)
    ensures IsFed(ss, SourceOf(async, i))
    decreases |acts|
  {
    var src := SourceOf(async, i);
    TailPositive(ss[0].m, Running);
    DueStays(ss[0], acts[0], async, i);
    CountsSame(ss[0], acts[0]);
    RunTail(ss, acts);
    if ss[1].fed != ss[0].fed + [src] {
      RanksBounded(ss[1].m, ss[1].loop, async, i);
      if acts[0] != DoSender(t) {
        CommittedFed(ss[1..], acts[1..], d, t, async, i);
      } else if ss[0].senders[t].pc.SetSkipped? {
        RecordFed(ss[1..], acts[1..], d, async, i);
      } else if ss[0].senders[t].pc.ClearSkipped? {
        assert Wait(acts[1..], t) <= d;
        WriterFed(ss[1..], acts[1..], t, async, i);
      } else {
        FirmFed(ss[1..], acts[1..], async, i);
      }
    }
    FedLater(ss, acts, src);
  }

  /** With its flag raised. */
  lemma DueFed(ss: seq<State>, acts: seq<Action>, d: nat, async: bool, i: nat)
    requires IsRun(ss, acts) && Prompt(ss, acts, d) && Inv(ss[0]) && Due(ss[0].m, ss[0].loop, async, i)
    requires LoopSteps(acts) >= 2 * d + 2 * Round2(ss[0].m)
    ensures IsFed(ss, SourceOf(async, i))
  {
    assert FlagCovered(ss[0].m, ss[0].loop, Committed(ss[0].senders), async);
    RanksBounded(ss[0].m, ss[0].loop, async, i);
    if OnRecord(ss[0].m, ss[0].loop, async, i) {
      RecordFed(ss, acts, d, async, i);
    } else {
      var t :| t in ss[0].senders && OnPipe(ss[0].senders[t].pc);
      assert Wait(acts, t) <= d;
      CommittedFed(ss, acts, d, t, async, i);
    }
  }

  /** With a sender of its kind that has yet to raise the flag, or to find it raised. */
  lemma {:induction false} RaisingFed(ss: seq<State>, acts: seq<Action>, d: nat, t: nat, async: bool, i: nat)
    requires IsRun(ss, acts) && Prompt(ss, acts, d) && Inv(ss[0])
    requires i < ss[0].m.Count(async) && ss[0].m.Marked(SourceOf(async, i))
    requires t in ss[0].senders && ss[0].senders[t].src.Async? == async && OnFlag(ss[0].senders[t].pc)
    requires LoopSteps(acts) >=
      Wait(acts, t) + (if ss[0].senders[t].pc.TestFlag? then d else 0) + 2 * d + 2 * Round2(ss[0].m)
    ensures IsFed(ss, SourceOf(async, i))
    decreases |acts|
  {
    var src := SourceOf(async, i);
    TailPositive(ss[0].m, Running);
    if Due(ss[0].m, ss[0].loop, async, i) {
      DueFed(ss, acts, d, async, i);
    } else {
      MarkStays(ss[0], acts[0], src);
      CountsSame(ss[0], acts[0]);
      StepInv(ss[0], acts[0]);
      RunTail(ss, acts);
      if ss[1].fed != ss[0].fed + [src] {
        if acts[0] == DoSender(t) && ss[0].senders[t].pc.RaiseFlag? {
          DueFed(ss[1..], acts[1..], d, async, i);
        } else {
          assert acts[0] == DoSender(t) ==> Wait(acts[1..], t) <= d;
          RaisingFed(ss[1..], acts[1..], d, t, async, i);
        }
      }
      FedLater(ss, acts, src);
    }
  }

  /** From every reachable state, in every interleaving: if each call in flight takes its next step before the loop has
      taken more than d, a marked source is fed before the loop has taken four times d and four iterations' steps. */
  lemma FedIfPrompt(ss: seq<State>, acts: seq<Action>, d: nat, async: bool, i: nat)
    requires IsRun(ss, acts) && Prompt(ss, acts, d) && Inv(ss[0])
    requires i < ss[0].m.Count(async) && ss[0].m.Marked(SourceOf(async, i))
    requires LoopSteps(acts) >= 4 * d + 2 * Round2(ss[0].m)
    ensures IsFed(ss, SourceOf(async, i))
  {
    assert MarksCovered(ss[0], async);
    assert MarkCovered(ss[0].m, ss[0].loop, Raising(ss[0].senders, async), async, i);
    if Due(ss[0].m, ss[0].loop, async, i) {
      DueFed(ss, acts, d, async, i);
    } else {
      var t :| t in ss[0].senders && ss[0].senders[t].src.Async? == async && OnFlag(ss[0].senders[t].pc);
      assert Wait(acts, t) <= d;
      RaisingFed(ss, acts, d, t, async, i);
    }
  }
}
