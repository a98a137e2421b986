/** The proxy's wire format, and what a stream of bytes says in it. */
module Framing {
  import opened Records

  const HEAD: nat := 8               // a length of four bytes, a command and a check of two
  const MAX_CMD_LEN: nat := 32768

  type ushort = x: int | 0 <= x < 65536

  datatype Cmd = Cmd(id: ushort, check: ushort, app: Bytes)

  function Num16(s: Bytes): ushort
    requires |s| == 2
  {
    Sizes();
    Num(s)
  }

  /** The bytes of a command; its length is cut to 32 bits. */
  function Encoded(c: Cmd): (s: Bytes)
    ensures |s| == HEAD + |c.app|
  {
    Net((HEAD + |c.app|) % WORD, 4) + Net(c.id, 2) + Net(c.check, 2) + c.app
  }

  /** The length a header announces. */
  function PkgLen(s: Bytes): nat
    requires |s| >= HEAD
  {
    Num(s[..4])
  }

  /** What Parse answers: -1 for a packet that is too long, 0 while it is incomplete or has an impossible length, and
      the length of the packet otherwise. */
  function ParseLen(s: Bytes): (n: int)
    ensures -1 <= n <= |s| && (n > 0 ==> HEAD <= n <= MAX_CMD_LEN)
  {
    if |s| < HEAD then 0
    else if PkgLen(s) > MAX_CMD_LEN then -1
    else if PkgLen(s) < HEAD then 0
    else if PkgLen(s) > |s| then 0
    else PkgLen(s)
  }

  function Decoded(s: Bytes): Cmd
    requires ParseLen(s) > 0
  {
    Cmd(Num16(s[4..6]), Num16(s[6..8]), s[HEAD..ParseLen(s)])
  }

  predicate Short(c: Cmd) {
    HEAD + |c.app| <= MAX_CMD_LEN
  }

  lemma EncodedParts(c: Cmd, rest: Bytes)
    ensures var s := Encoded(c) + rest;
      && |s| >= HEAD + |c.app| && PkgLen(s) == (HEAD + |c.app|) % WORD && s[HEAD..HEAD + |c.app|] == c.app
      && Num16(s[4..6]) == c.id && Num16(s[6..8]) == c.check
  {
    var s, n := Encoded(c) + rest, (HEAD + |c.app|) % WORD;
    Sizes();
    NumNet(n, 4);
    NumNet(c.id, 2);
    NumNet(c.check, 2);
    assert s[..4] == Net(n, 4) && s[4..6] == Net(c.id, 2) && s[6..8] == Net(c.check, 2);
  }

  /** A command is read back from its bytes exactly when they are not too many. */
  lemma CmdRoundTrip(c: Cmd, rest: Bytes)
    ensures var s := Encoded(c) + rest;
      (ParseLen(s) == |Encoded(c)| && Decoded(s) == c) <==> Short(c)
  {
    var s := Encoded(c) + rest;
    EncodedParts(c, rest);
    if Short(c) {
      assert ParseLen(s) == HEAD + |c.app|;
      assert Decoded(s).id == c.id && Decoded(s).check == c.check && Decoded(s).app == c.app;
    }
  }

  /** And what is read is what such bytes are. */
  lemma ReadIsEncoded(s: Bytes)
    requires ParseLen(s) > 0
    ensures s == Encoded(Decoded(s)) + s[ParseLen(s)..]
  {
    var n, c := ParseLen(s), Decoded(s);
    NetNum(s[..4]);
    NetNum(s[4..6]);
    NetNum(s[6..8]);
    assert HEAD + |c.app| == n == Num(s[..4]);
    assert s[..n] == s[..4] + s[4..6] + s[6..8] + s[HEAD..n];
    assert s == s[..n] + s[n..];
  }

  /** The length in the first four bytes decides: more than a buffer holds is an error as soon as they are there, less
      than a header is never a packet, and otherwise the packet is there when all its bytes are. */
  lemma HeaderDecides(s: Bytes)
    ensures |s| < 8 ==> ParseLen(s) == 0
    ensures |s| >= 8 ==>
      var len := Four(s, 0);
      && (ParseLen(s) == -1 <==> len > 32768)
      && (ParseLen(s) > 0 <==> 8 <= len <= 32768 && |s| >= len) && (ParseLen(s) > 0 ==> ParseLen(s) == len)
  {
    if |s| >= 8 {
      NetworkOrder(s, 0);
    }
  }

  lemma LayoutHead(c: Cmd)
    requires HEAD + |c.app| < WORD
    ensures var s := Encoded(c);
      s[..4] == Net(|s|, 4) && s[4..6] == Net(c.id, 2) && s[6..8] == Net(c.check, 2) && s[8..] == c.app
  {
  }

  /** Where the parts of a command stand: its length, its number and its check, and then its data. */
  lemma Layout(c: Cmd)
    requires HEAD + |c.app| < WORD
    ensures var s := Encoded(c);
      Four(s, 0) == |s| && Two(s, 4) == c.id && Two(s, 6) == c.check && s[8..] == c.app
  {
    var s := Encoded(c);
    Sizes();
    LayoutHead(c);
    NumNet(|s|, 4);
    NumNet(c.id, 2);
    NumNet(c.check, 2);
    NetworkOrder(s, 0);
    NetworkOrder(s, 4);
    NetworkOrder(s, 6);
  }

  /** More bytes do not change an answer but that of an incomplete packet. */
  lemma ParseMore(s: Bytes, t: Bytes)
    ensures ParseLen(s) != 0 ==> ParseLen(s + t) == ParseLen(s)
    ensures ParseLen(s) > 0 ==> Decoded(s + t) == Decoded(s) && (s + t)[ParseLen(s)..] == s[ParseLen(s)..] + t
  {
    if |s| >= HEAD {
      assert (s + t)[..4] == s[..4] && (s + t)[4..6] == s[4..6] && (s + t)[6..8] == s[6..8];
      if ParseLen(s) > 0 {
        assert (s + t)[HEAD..ParseLen(s)] == s[HEAD..ParseLen(s)];
      }
    }
  }

  // ----- whole streams

  /** The commands a stream holds, and the bytes after them. */
  datatype Frames = Frames(cmds: seq<Cmd>, rest: Bytes)

  function FramesOf(s: Bytes): Frames
    decreases |s|
  {
    var n := ParseLen(s);
    if n <= 0 then Frames([], s)
    else
      var f := FramesOf(s[n..]);
      Frames([Decoded(s)] + f.cmds, f.rest)
  }

  function EncodedAll(cs: seq<Cmd>): Bytes {
    if cs == [] then [] else Encoded(cs[0]) + EncodedAll(cs[1..])
  }

  lemma EncodedCons(c: Cmd, cs: seq<Cmd>)
    ensures EncodedAll([c] + cs) == Encoded(c) + EncodedAll(cs)
  {
    assert ([c] + cs)[1..] == cs;
  }

  /** No byte is lost or made up. */
  lemma {:induction false} FramesConserve(s: Bytes)
    ensures EncodedAll(FramesOf(s).cmds) + FramesOf(s).rest == s && ParseLen(FramesOf(s).rest) <= 0
    decreases |s|
  {
    var n := ParseLen(s);
    if n > 0 {
      FramesConserve(s[n..]);
      ReadIsEncoded(s);
      var f := FramesOf(s[n..]);
      EncodedCons(Decoded(s), f.cmds);
      Associate(Encoded(Decoded(s)), EncodedAll(f.cmds), f.rest);
    }
  }

  lemma SplitFirst(s: Bytes, t: Bytes)
    requires ParseLen(s) > 0
    ensures var f := FramesOf(s[ParseLen(s)..] + t); FramesOf(s + t) == Frames([Decoded(s)] + f.cmds, f.rest)
  {
    ParseMore(s, t);
  }

  lemma Uncons(cs: seq<Cmd>, ds: seq<Cmd>)
    ensures if cs == [] then cs + ds == ds else [cs[0]] + (cs[1..] + ds) == cs + ds
  {
  }

  /** Reading a stream in two parts is reading it at once. */
  lemma {:induction false} FramesSplit(s: Bytes, t: Bytes)
    ensures var f := FramesOf(s); var g := FramesOf(f.rest + t);
      FramesOf(s + t) == Frames(f.cmds + g.cmds, g.rest)
    decreases |s|
  {
    var n := ParseLen(s);
    if n > 0 {
      SplitFirst(s, t);
      FramesSplit(s[n..], t);
      var f := FramesOf(s[n..]);
      Uncons([Decoded(s)] + f.cmds, FramesOf(f.rest + t).cmds);
      assert ([Decoded(s)] + f.cmds)[1..] == f.cmds;
    } else {
      Uncons([], FramesOf(s + t).cmds);
    }
  }

  function Flat(q: seq<Bytes>): Bytes {
    if q == [] then [] else q[0] + Flat(q[1..])
  }

  lemma {:induction false} FlatAppend(q: seq<Bytes>, b: Bytes)
    ensures Flat(q + [b]) == Flat(q) + b
  {
    if q == [] {
      assert Flat([b]) == b + Flat([]);
    } else {
      assert (q + [b])[1..] == q[1..] + [b] && (q + [b])[0] == q[0];
      FlatAppend(q[1..], b);
    }
  }

  /** A chunk is read after what earlier ones left over. */
  function Fed(f: Frames, chunk: Bytes): Frames {
    var g := FramesOf(f.rest + chunk);
    Frames(f.cmds + g.cmds, g.rest)
  }

  function FedAll(chunks: seq<Bytes>): Frames {
    if chunks == [] then FramesOf([]) else Fed(FedAll(chunks[..|chunks| - 1]), chunks[|chunks| - 1])
  }

  /** However a stream is cut into chunks, the commands and the bytes left over are those of the whole. */
  lemma {:induction false} ChunkInvariant(chunks: seq<Bytes>)
    ensures FedAll(chunks) == FramesOf(Flat(chunks))
  {
    if chunks != [] {
      var n := |chunks| - 1;
      ChunkInvariant(chunks[..n]);
      assert chunks == chunks[..n] + [chunks[n]];
      FlatAppend(chunks[..n], chunks[n]);
      FramesSplit(Flat(chunks[..n]), chunks[n]);
    }
  }

  lemma FirstFrame(c: Cmd, more: Bytes)
    requires Short(c)
    ensures FramesOf(Encoded(c) + more) == Frames([c] + FramesOf(more).cmds, FramesOf(more).rest)
  {
    var s := Encoded(c) + more;
    CmdRoundTrip(c, more);
    assert s[|Encoded(c)|..] == more;
  }

  /** A stream of commands that are not too long holds just these. */
  lemma {:induction false} FramesOfCmds(cs: seq<Cmd>, rest: Bytes)
    requires forall i {:trigger cs[i]} :: 0 <= i < |cs| ==> Short(cs[i])
    ensures FramesOf(EncodedAll(cs) + rest) == Frames(cs + FramesOf(rest).cmds, FramesOf(rest).rest)
  {
    if cs == [] {
      assert EncodedAll(cs) + rest == rest && cs + FramesOf(rest).cmds == FramesOf(rest).cmds;
    } else {
      var more, r := EncodedAll(cs[1..]) + rest, FramesOf(rest);
      FramesOfCmds(cs[1..], rest);
      FirstFrame(cs[0], more);
      Associate(Encoded(cs[0]), EncodedAll(cs[1..]), rest);
      Uncons(cs, r.cmds);
    }
  }

  /** The header announces a length that no packet has: no byte that follows can change that. */
  predicate Stuck(s: Bytes) {
    |s| >= HEAD && PkgLen(s) < HEAD
  }

  lemma StuckForever(s: Bytes, t: Bytes)
    requires Stuck(s)
    ensures Stuck(s + t) && FramesOf(s + t) == Frames([], s + t)
  {
    assert (s + t)[..4] == s[..4];
  }

  /** A full buffer yields a packet or ends the connection, unless it is stuck. */
  lemma FullBuffer(s: Bytes)
    requires |s| >= MAX_CMD_LEN
    ensures ParseLen(s) == 0 <==> Stuck(s)
  {
  }
}

/** A connection of the proxy: its receive buffer, the commands handed on, and the responses still to be written. */
module Tasks {
  import opened Records
  import opened Framing

  /** How a socket answers when it has no more bytes for now. */
  datatype Ending = WouldBlock | Closed | Failed

  /** How a socket answers a write: it takes up to n bytes (none: it is closed), or not now, or never. */
  datatype Writev = Took(n: nat) | Later | Broken

  function Least(a: nat, b: nat): nat {
    if a < b then a else b
  }

  /** A flush of the queue: the bytes written, the buffers left, and the answer that ended it, if it was not done. */
  datatype Flush = Flush(taken: Bytes, left: seq<Bytes>, stop: Option<Writev>)

  lemma FrontTaken(q: seq<Bytes>, k: nat)
    requires q != [] && 0 < k <= |q[0]|
    ensures q[0][..k] + Flat([q[0][k..]] + q[1..]) == Flat(q)
    ensures k == |q[0]| ==> q[0][..k] + Flat(q[1..]) == Flat(q)
  {
    var q' := [q[0][k..]] + q[1..];
    assert q'[1..] == q[1..] && q[0][..k] + q[0][k..] == q[0];
    Associate(q[0][..k], q[0][k..], Flat(q[1..]));
  }

  /** What FlushSendQueue makes of the queue when the socket answers like this from the n-th write on. */
  function Flushing(q: seq<Bytes>, writes: nat -> Writev, n: nat): Flush
    decreases |Flat(q)|, |q|
  {
    if q == [] then Flush([], [], None)
    else if q[0] == [] then Flushing(q[1..], writes, n)
    else if writes(n) == Broken || writes(n) == Later || writes(n) == Took(0) then Flush([], q, Some(writes(n)))
    else
      var k := Least(writes(n).n, |q[0]|);
      FrontTaken(q, k);
      var f := Flushing(if k == |q[0]| then q[1..] else [q[0][k..]] + q[1..], writes, n + 1);
      Flush(q[0][..k] + f.taken, f.left, f.stop)
  }

  /** The socket takes something. */
  predicate Takes(w: Writev) {
    w.Took? && w.n > 0
  }

  /** What is written and what is left are what was queued. */
  lemma {:induction false} FlushConserves(q: seq<Bytes>, writes: nat -> Writev, n: nat)
    ensures var f := Flushing(q, writes, n); f.taken + Flat(f.left) == Flat(q)
    decreases |Flat(q)|, |q|
  {
    if q != [] && q[0] == [] {
      FlushConserves(q[1..], writes, n);
    } else if q != [] && Takes(writes(n)) {
      var k := Least(writes(n).n, |q[0]|);
      FrontTaken(q, k);
      var q' := if k == |q[0]| then q[1..] else [q[0][k..]] + q[1..];
      FlushConserves(q', writes, n + 1);
      var f := Flushing(q', writes, n + 1);
      Associate(q[0][..k], f.taken, Flat(f.left));
    }
  }

  /** A flush goes on to the end of the queue, unless some write is refused; then every write before that one has taken
      something, and the refusal is what the flush answers. */
  lemma {:induction false} FlushEnds(q: seq<Bytes>, writes: nat -> Writev, n: nat) returns (m: nat)
    ensures var f := Flushing(q, writes, n);
      && (f.stop == None <==> f.left == []) && n <= m
      && (f.stop != None ==> f.stop == Some(writes(m)) && !Takes(writes(m)) && f.left[0] != [])
      && forall i {:trigger writes(i)} :: n <= i < m ==> Takes(writes(i))
    decreases |Flat(q)|, |q|
  {
    m := n;
    if q != [] && q[0] == [] {
      m := FlushEnds(q[1..], writes, n);
    } else if q != [] && Takes(writes(n)) {
      var k := Least(writes(n).n, |q[0]|);
      FrontTaken(q, k);
      m := FlushEnds(if k == |q[0]| then q[1..] else [q[0][k..]] + q[1..], writes, n + 1);
    }
  }

  /** Half-way: what is still to be done ends with what the whole flush ends with, all bytes written included. */
  ghost predicate Goes(q: seq<Bytes>, sent: Bytes, writes: nat -> Writev, n: nat, goal: Flush) {
    var f := Flushing(q, writes, n);
    f.left == goal.left && f.stop == goal.stop && sent + f.taken == goal.taken
  }

  lemma GoesOn(q: seq<Bytes>, sent: Bytes, writes: nat -> Writev, n: nat, goal: Flush)
    requires q != [] && q[0] != [] && Takes(writes(n)) && Goes(q, sent, writes, n, goal)
    ensures var k := Least(writes(n).n, |q[0]|);
      var q' := if k == |q[0]| then q[1..] else [q[0][k..]] + q[1..];
      Goes(q', sent + q[0][..k], writes, n + 1, goal) && |Flat(q')| < |Flat(q)|
  {
    var k := Least(writes(n).n, |q[0]|);
    FrontTaken(q, k);
    var f := Flushing(if k == |q[0]| then q[1..] else [q[0][k..]] + q[1..], writes, n + 1);
    Associate(sent, q[0][..k], f.taken);
  }

  lemma GoneOff(q: seq<Bytes>, sent: Bytes, writes: nat -> Writev, n: nat, goal: Flush)
    requires q != [] && q[0] != [] && !Takes(writes(n)) && Goes(q, sent, writes, n, goal)
    ensures q == goal.left && goal.stop == Some(writes(n)) && sent == goal.taken
  {
    assert writes(n) == Broken || writes(n) == Later || writes(n) == Took(0);
    assert sent + [] == sent;
  }

  /** A write that is taken in part, and then a socket that takes no more for now: just that part is written. */
  lemma PartlyTaken(q: seq<Bytes>, writes: nat -> Writev, n: nat, k: nat)
    requires q != [] && writes(n) == Took(k) && 0 < k < |q[0]| && writes(n + 1) == Later
    ensures Flushing(q, writes, n) == Flush(q[0][..k], [q[0][k..]] + q[1..], Some(Later))
  {
    FrontTaken(q, k);
  }

  class Command {
    var id: ushort
    var check: ushort
    var app: Bytes

    constructor ()
      ensures id == 0 && check == 0 && app == []
    {
      id, check, app := 0, 0, [];
    }

    method Clear()
      modifies this
      ensures id == 0 && check == 0 && app == []
    {
      id, check, app := 0, 0, [];
    }

    method Parse(data: Bytes) returns (n: int)
      modifies this
      ensures n == ParseLen(data)
      ensures n > 0 ==> Cmd(id, check, app) == Decoded(data)
      ensures n <= 0 ==> id == old(id) && check == old(check) && app == old(app)
    {
      if |data| < HEAD {
        return 0;
      }
      var len := Num(data[..4]);
      if len > MAX_CMD_LEN {
        return -1;
      }
      if len < HEAD {
        return 0;
      }
      if len > |data| {
        return 0;
      }
      id, check := Num16(data[4..6]), Num16(data[6..8]);
      app := data[HEAD..len];
      return len;
    }

    /** Both parts of the header and the data, in one string. */
    method Serialize() returns (data: Bytes)
      ensures data == Encoded(Cmd(id, check, app))
    {
      data := Net((HEAD + |app|) % WORD, 4) + Net(id, 2) + Net(check, 2);
      data := data + app;
    }
  }

  class Task {
    var sock: int
    var recv_buff: Bytes
    var send_queue: seq<Bytes>
    const cmd: Command
    var done: seq<Cmd>         // the commands handed on
    ghost var received: Bytes  // every byte taken from the socket
    ghost var sent: Bytes      // every byte the socket has taken

    /** The commands handed on and the bytes still held are those of all that was received. */
    ghost predicate Valid()
      reads this
    {
      |recv_buff| <= MAX_CMD_LEN && FramesOf(received) == Frames(done, recv_buff)
    }

    constructor (sock: int)
      ensures Valid() && received == [] && sent == [] && send_queue == [] && this.sock == sock && fresh(cmd)
    {
      this.sock, recv_buff, send_queue, done := sock, [], [], [];
      received, sent := [], [];
      cmd := new Command();
    }

    predicate IsTerminate()
      reads this`sock
    {
      sock <= 0
    }

    method Terminate()
      modifies this`sock
      ensures IsTerminate()
    {
      if IsTerminate() {
        return;
      }
      sock := -1;
    }

    /** Recv: avail is what the socket holds, chop(n) the most it gives at the n-th call, ending its answer when it has
        nothing. What does not fit the buffer is left. */
    method Recv(avail: Bytes, chop: nat -> nat, ending: Ending) returns (left: Bytes)
      requires |recv_buff| <= MAX_CMD_LEN
      modifies this`sock, this`recv_buff, this`received
      ensures |recv_buff| <= MAX_CMD_LEN && |left| <= |avail|
      ensures recv_buff == old(recv_buff) + avail[..|avail| - |left|] && left == avail[|avail| - |left|..]
      ensures received == old(received) + avail[..|avail| - |left|]
      ensures old(IsTerminate()) ==> left == avail && IsTerminate()
      ensures !old(IsTerminate()) ==> left == [] || |recv_buff| == MAX_CMD_LEN
      ensures !old(IsTerminate()) ==> (IsTerminate() <==> ending != WouldBlock && |recv_buff| < MAX_CMD_LEN)
    {
      left := avail;
      if IsTerminate() {
        return;
      }
      var n := 0;
      while |recv_buff| < MAX_CMD_LEN
        invariant |recv_buff| <= MAX_CMD_LEN && |left| <= |avail| && !IsTerminate()
        invariant recv_buff == old(recv_buff) + avail[..|avail| - |left|] && left == avail[|avail| - |left|..]
        invariant received == old(received) + avail[..|avail| - |left|]
        decreases |left|
      {
        if left == [] {
          if ending != WouldBlock {
            Terminate();
          }
          break;
        }
        var size := Least(Least(|left|, MAX_CMD_LEN - |recv_buff|), if chop(n) == 0 then 1 else chop(n));
        ghost var k := |avail| - |left|;
        assert avail[..k] + left[..size] == avail[..k + size];
        recv_buff, received := recv_buff + left[..size], received + left[..size];
        left := left[size..];
        n := n + 1;
      }
    }

    /** HandleCmdMsg: hands on every command the buffer holds. */
    method HandleCmdMsg()
      modifies this`sock, this`recv_buff, this`done, cmd
      ensures Frames(done, recv_buff)
        == Frames(old(done) + FramesOf(old(recv_buff)).cmds, FramesOf(old(recv_buff)).rest)
      ensures IsTerminate() <==> old(IsTerminate()) || ParseLen(recv_buff) < 0
      ensures |recv_buff| <= |old(recv_buff)|
      ensures recv_buff != [] ==> cmd.id == 0 && cmd.check == 0 && cmd.app == []
    {
      ghost var all := FramesOf(recv_buff);
      assert done + all.cmds == done + FramesOf(recv_buff).cmds;
      while |recv_buff| > 0
        invariant done + FramesOf(recv_buff).cmds == old(done) + all.cmds && FramesOf(recv_buff).rest == all.rest
        invariant |recv_buff| <= |old(recv_buff)| && sock == old(sock)
        decreases |recv_buff|
      {
        cmd.Clear();
        var rv := cmd.Parse(recv_buff);
        if rv <= 0 {
          assert done + [] == done;
          if rv < 0 {
            Terminate();
          }
          return;
        }
        ghost var rest := FramesOf(recv_buff[rv..]).cmds;
        assert done + ([Cmd(cmd.id, cmd.check, cmd.app)] + rest) == done + [Cmd(cmd.id, cmd.check, cmd.app)] + rest;
        done := done + [Cmd(cmd.id, cmd.check, cmd.app)];
        recv_buff := recv_buff[rv..];
      }
      assert done + [] == done;
    }

    /** OnSockReadHdl. */
    method OnSockRead(avail: Bytes, chop: nat -> nat, ending: Ending) returns (left: Bytes)
      requires Valid()
      modifies this`sock, this`recv_buff, this`done, this`received, cmd
      ensures Valid() && |left| <= |avail| && received == old(received) + avail[..|avail| - |left|]
      ensures left == avail[|avail| - |left|..]
      ensures EncodedAll(done) + recv_buff == received
      ensures |recv_buff| == MAX_CMD_LEN && !IsTerminate() ==> Stuck(recv_buff)
      ensures old(IsTerminate()) ==> left == avail
      ensures !old(IsTerminate()) ==> left == [] || |old(recv_buff)| + |avail| - |left| == MAX_CMD_LEN
      ensures IsTerminate() <==>
        || old(IsTerminate()) || ParseLen(recv_buff) < 0
        || (ending != WouldBlock && |old(recv_buff)| + |avail| - |left| < MAX_CMD_LEN)
    {
      left := Recv(avail, chop, ending);
      ghost var part := avail[..|avail| - |left|];
      FramesSplit(old(received), part);
      HandleCmdMsg();
      FramesConserve(received);
      if |recv_buff| == MAX_CMD_LEN {
        FullBuffer(recv_buff);
      }
    }

    /** The socket takes the first k bytes of the front buffer, which leaves the queue when it is empty. */
    method SendFront(k: nat)
      requires send_queue != [] && 0 < k <= |send_queue[0]|
      modifies this`send_queue, this`sent
      ensures sent == old(sent) + old(send_queue[0])[..k]
      ensures send_queue == if k == |old(send_queue[0])| then old(send_queue[1..])
                            else [old(send_queue[0])[k..]] + old(send_queue[1..])
    {
      sent := sent + send_queue[0][..k];
      send_queue := [send_queue[0][k..]] + send_queue[1..];
      if send_queue[0] == [] {
        send_queue := send_queue[1..];
      }
    }

    /** FlushSendQueue: writes(n) is the socket's answer to the n-th writev. */
    method FlushSendQueue(writes: nat -> Writev) returns (ret: int)
      modifies this`sock, this`send_queue, this`sent
      ensures old(IsTerminate()) ==> ret == -1 && sent == old(sent) && send_queue == old(send_queue) && IsTerminate()
      ensures !old(IsTerminate()) ==>
        var f := Flushing(old(send_queue), writes, 0);
        && sent == old(sent) + f.taken && send_queue == f.left
        && ret == (if f.stop == Some(Broken) then -1 else if f.stop == Some(Took(0)) then -2 else 0)
        && (IsTerminate() <==> f.stop == Some(Broken))
    {
      if IsTerminate() {
        return -1;
      }
      var n := 0;
      ghost var f := Flushing(send_queue, writes, 0);
      ghost var goal := f.(taken := sent + f.taken);
      while send_queue != []
        invariant !IsTerminate() && Goes(send_queue, sent, writes, n, goal)
        decreases |Flat(send_queue)|, |send_queue|
      {
        var front := send_queue[0];
        if front == [] {
          send_queue := send_queue[1..];
          continue;
        }
        match writes(n) {
          case Broken =>
            Terminate();
            GoneOff(send_queue, sent, writes, n, goal);
            return -1;
          case Later =>
            GoneOff(send_queue, sent, writes, n, goal);
            return 0;
          case Took(0) =>
            GoneOff(send_queue, sent, writes, n, goal);
            return -2;
          case Took(m) =>
            GoesOn(send_queue, sent, writes, n, goal);
            SendFront(Least(m, |front|));
        }
        n := n + 1;
      }
      assert sent + [] == sent;
      return 0;
    }

    /** What a flush of the queue q means for a connection that had not ended, when sent0 had been written before: the
        queue has been written from its front as far as the socket took it. It is empty, or some write was refused, all
        before having taken something; and the connection goes on unless that refusal was for good. */
    ghost predicate Wrote(q: seq<Bytes>, sent0: Bytes, writes: nat -> Writev)
      reads this
    {
      var f := Flushing(q, writes, 0);
      && sent == sent0 + f.taken && send_queue == f.left && sent + Flat(send_queue) == sent0 + Flat(q)
      && (send_queue == [] ==> !IsTerminate())
      && (send_queue != [] ==> exists m: nat {:trigger writes(m)} ::
            && !Takes(writes(m)) && (IsTerminate() <==> writes(m) != Later)
            && forall i {:trigger writes(i)} :: 0 <= i < m ==> Takes(writes(i)))
    }

    lemma Writes(q: seq<Bytes>, sent0: Bytes, writes: nat -> Writev)
      requires var f := Flushing(q, writes, 0);
        && sent == sent0 + f.taken && send_queue == f.left
        && (IsTerminate() <==> f.stop == Some(Broken) || f.stop == Some(Took(0)))
      ensures Wrote(q, sent0, writes)
    {
      var f := Flushing(q, writes, 0);
      var m := FlushEnds(q, writes, 0);
      FlushConserves(q, writes, 0);
      Associate(sent0, f.taken, Flat(f.left));
    }

    /** WriteRemain, when the socket can be written again. */
    method WriteRemain(writes: nat -> Writev)
      modifies this`sock, this`send_queue, this`sent
      ensures old(IsTerminate()) ==> sent == old(sent) && send_queue == old(send_queue) && IsTerminate()
      ensures !old(IsTerminate()) ==> Wrote(old(send_queue), old(sent), writes)
    {
      var err := FlushSendQueue(writes);
      if err < 0 {
        Terminate();
      }
      if !old(IsTerminate()) {
        Writes(old(send_queue), old(sent), writes);
      }
    }

    /** Response: the bytes join the queue behind all others, and the queue is written. */
    method Response(bs: Bytes, writes: nat -> Writev)
      modifies this`sock, this`send_queue, this`sent
      ensures sent + Flat(send_queue) == old(sent) + old(Flat(send_queue)) + bs
      ensures old(IsTerminate()) ==> sent == old(sent) && send_queue == old(send_queue) + [bs] && IsTerminate()
      ensures !old(IsTerminate()) ==> Wrote(old(send_queue) + [bs], old(sent), writes)
      ensures !old(IsTerminate()) && (forall n {:trigger writes(n)} :: Takes(writes(n))) ==>
        send_queue == [] && sent == old(sent) + old(Flat(send_queue)) + bs && !IsTerminate()
    {
      FlatAppend(send_queue, bs);
      Associate(sent, Flat(send_queue), bs);
      send_queue := send_queue + [bs];
      ghost var q := send_queue;
      var err := FlushSendQueue(writes);
      if err < 0 {
        Terminate();
      }
      if !old(IsTerminate()) {
        Writes(q, old(sent), writes);
        assert send_queue == [] ==> sent + [] == sent;
      }
    }
  }
}
