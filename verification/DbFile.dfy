/** The database file: its messages as stdio takes them, the batches of a table, and what is on the device in the
    end. */
module DbFile {
  import opened SkipLists
  import opened Records
  import opened Sldb
  import opened DbSpec

  function PutMsg(st: Stream, c: Codec, m: Msg): Stream {
    PutRecord(st, RecordOf(c, m))
  }

  /** Saving this message is no error. */
  predicate Accepted(st: Stream, c: Codec, m: Msg) {
    c.ser(m) != [] && !Failed(st, PutMsg(st, c, m))
  }

  /** Messages one after the other, whatever becomes of each. */
  function PutMsgs(st: Stream, c: Codec, ms: seq<Msg>): Stream {
    if ms == [] then st
    else
      var n := |ms| - 1;
      PutMsg(PutMsgs(st, c, ms[..n]), c, ms[n])
  }

  /** A table: its head, and its members if the head was accepted. */
  function PutTable(st: Stream, c: Codec, key: string, size: nat, es: seq<Entry>): Stream {
    var head := TableHead(key, size);
    var st1 := PutMsg(st, c, head);
    if Accepted(st, c, head) then PutMsgs(st1, c, Batches(es)) else st1
  }

  function PutTables(st: Stream, c: Codec, ts: Tables, sizes: Sizes, order: seq<string>): Stream
    requires forall i {:trigger order[i]} :: 0 <= i < |order| ==> order[i] in ts
  {
    if order == [] then st
    else
      var n := |order| - 1;
      PutTable(PutTables(st, c, ts, sizes, order[..n]), c, order[n], SizeOf(sizes, order[n]), ts[order[n]])
  }

  /** The two messages at the start of a file, and whether both were accepted. */
  function PutHead(st: Stream, c: Codec, time: string): (Stream, bool) {
    var version, num := HeadMsgs(time)[0], HeadMsgs(time)[1];
    var st1 := PutMsg(st, c, version);
    if Accepted(st, c, version) then (PutMsg(st1, c, num), Accepted(st1, c, num)) else (st1, false)
  }

  /** The whole file. */
  function PutDb(st: Stream, c: Codec, ts: Tables, sizes: Sizes, order: seq<string>, time: string): (Stream, bool)
    requires forall i {:trigger order[i]} :: 0 <= i < |order| ==> order[i] in ts
  {
    var (st1, ok) := PutHead(st, c, time);
    (if ok then PutTables(st1, c, ts, sizes, order) else st1, ok)
  }

  lemma OneMoreTable(st: Stream, c: Codec, ts: Tables, sizes: Sizes, order: seq<string>, i: nat)
    requires i < |order| && forall i {:trigger order[i]} :: 0 <= i < |order| ==> order[i] in ts
    ensures PutTables(st, c, ts, sizes, order[..i + 1])
         == PutTable(PutTables(st, c, ts, sizes, order[..i]), c, order[i], SizeOf(sizes, order[i]), ts[order[i]])
  {
    assert order[..i + 1][..i] == order[..i];
  }

  // ----- what is on the device in the end

  lemma MsgStreams(st: Stream, c: Codec, m: Msg, bytes: Bytes, cap: nat)
    requires Streams(st, bytes, cap)
    ensures Streams(PutMsg(st, c, m), bytes + FileOf(c, [m]), cap) && PutMsg(st, c, m).faults >= st.faults
  {
    FileOne(c, m);
    RecordStreams(st, RecordOf(c, m), bytes, cap);
  }

  lemma {:induction false} MsgsStreams(st: Stream, c: Codec, ms: seq<Msg>, bytes: Bytes, cap: nat)
    requires Streams(st, bytes, cap)
    ensures Streams(PutMsgs(st, c, ms), bytes + FileOf(c, ms), cap)
  {
    if ms == [] {
      assert bytes + FileOf(c, []) == bytes;
    } else {
      var some, m := ms[..|ms| - 1], ms[|ms| - 1];
      MsgsStreams(st, c, some, bytes, cap);
      MsgStreams(PutMsgs(st, c, some), c, m, bytes + FileOf(c, some), cap);
      FileAppend(c, some, [m]);
      assert ms == some + [m];
      Associate(bytes, FileOf(c, some), FileOf(c, [m]));
    }
  }

  lemma TableStreams(st: Stream, c: Codec, key: string, size: nat, es: seq<Entry>, bytes: Bytes, cap: nat)
    requires Streams(st, bytes, cap)
    ensures Streams(PutTable(st, c, key, size, es), bytes + FileOf(c, TableMsgs(c, key, size, es)), cap)
  {
    var head := TableHead(key, size);
    var st1 := PutMsg(st, c, head);
    MsgStreams(st, c, head, bytes, cap);
    if c.ser(head) == [] {
      assert [head] + [] == [head];
    } else {
      FileAppend(c, [head], Batches(es));
      Associate(bytes, FileOf(c, [head]), FileOf(c, Batches(es)));
      if Failed(st, st1) {
        LostStreams(st1, bytes + FileOf(c, [head]), FileOf(c, Batches(es)), cap);
      } else {
        MsgsStreams(st1, c, Batches(es), bytes + FileOf(c, [head]), cap);
      }
    }
  }

  lemma {:induction false} TablesStreams(st: Stream, c: Codec, ts: Tables, sizes: Sizes, order: seq<string>,
                                         bytes: Bytes, cap: nat)
    requires Streams(st, bytes, cap) && forall i {:trigger order[i]} :: 0 <= i < |order| ==> order[i] in ts
    ensures Streams(PutTables(st, c, ts, sizes, order), bytes + FileOf(c, AllTableMsgs(c, ts, sizes, order)), cap)
  {
    if order == [] {
      assert bytes + FileOf(c, []) == bytes;
    } else {
      var n := |order| - 1;
      var some, key := order[..n], order[n];
      var ms, more := AllTableMsgs(c, ts, sizes, some), TableMsgs(c, key, SizeOf(sizes, key), ts[key]);
      TablesStreams(st, c, ts, sizes, some, bytes, cap);
      TableStreams(PutTables(st, c, ts, sizes, some), c, key, SizeOf(sizes, key), ts[key], bytes + FileOf(c, ms), cap);
      FileAppend(c, ms, more);
      Associate(bytes, FileOf(c, ms), FileOf(c, more));
    }
  }

  predicate Overflows(c: Codec, ms: seq<Msg>, cap: nat) {
    |FileOf(c, ms)| > cap
  }

  /** Both messages at the start of a file have a payload. */
  predicate HeadFilled(c: Codec, time: string) {
    c.ser(HeadMsgs(time)[0]) != [] && c.ser(HeadMsgs(time)[1]) != []
  }

  lemma HeadStreams(st: Stream, c: Codec, time: string, cap: nat)
    requires Streams(st, [], cap) && st.faults == 0
    ensures PutHead(st, c, time).1 ==>
      HeadFilled(c, time) && Streams(PutHead(st, c, time).0, FileOf(c, HeadMsgs(time)), cap)
    ensures HeadFilled(c, time) && !Overflows(c, HeadMsgs(time), cap) ==> PutHead(st, c, time).1
  {
    var version, num := HeadMsgs(time)[0], HeadMsgs(time)[1];
    var st1 := PutMsg(st, c, version);
    assert HeadMsgs(time) == [version] + [num] && [] + FileOf(c, [version]) == FileOf(c, [version]);
    FileAppend(c, [version], [num]);
    MsgStreams(st, c, version, [], cap);
    MsgStreams(st1, c, num, FileOf(c, [version]), cap);
  }

  /** A file just opened for writing on a device of this size. */
  predicate Opened(st: Stream, cap: nat) {
    st.data == [] && st.room == cap && st.held == [] && st.faults == 0
  }

  /** After the flush, the file holds as much of the database as there is room for. If there is room for all of it,
      saving goes well as long as the first messages have a payload. If not, the flush reports it, except when some
      write had failed before and stdio has held nothing back since. */
  lemma SavingTells(st0: Stream, c: Codec, ts: Tables, sizes: Sizes, order: seq<string>, time: string, cap: nat)
    requires Opened(st0, cap) && forall i {:trigger order[i]} :: 0 <= i < |order| ==> order[i] in ts
    ensures var (ms, (st, ok)) := (DbMsgs(c, ts, sizes, order, time), PutDb(st0, c, ts, sizes, order, time));
      && (!Overflows(c, ms, cap) ==> (ok <==> HeadFilled(c, time)))
      && (ok ==> Flushed(st).data == if Overflows(c, ms, cap) then FileOf(c, ms)[..cap] else FileOf(c, ms))
      && (ok ==> (!Failed(st, Flushed(st)) <==> !Overflows(c, ms, cap) || (st.faults > 0 && st.held == [])))
  {
    var head, tables := HeadMsgs(time), AllTableMsgs(c, ts, sizes, order);
    var (st1, ok) := PutHead(st0, c, time);
    FileAppend(c, head, tables);
    HeadStreams(st0, c, time, cap);
    if ok {
      TablesStreams(st1, c, ts, sizes, order, FileOf(c, head), cap);
      FlushTells(PutTables(st1, c, ts, sizes, order), FileOf(c, head + tables), cap);
    }
  }

  /** Writes a message. */
  method Write(f: File, c: Codec, m: Msg) returns (n: int)
    modifies f`data, f`room, f`held, f`faults, f`buffered
    ensures f.Out() == PutMsg(old(f.Out()), c, m) && (n < 0 <==> !Accepted(old(f.Out()), c, m))
  {
    n := f.SaveObj(RecordOf(c, m));
  }

  lemma OneMoreMsg(st: Stream, c: Codec, ms: seq<Msg>, m: Msg)
    ensures PutMsgs(st, c, ms + [m]) == PutMsg(PutMsgs(st, c, ms), c, m)
  {
    assert (ms + [m])[..|ms|] == ms;
  }

  // ----- the members of a table

  /** The first k members make whole batches, out; those up to i are gathered in kvs. */
  predicate Gathered(es: seq<Entry>, k: nat, i: nat, g: Gathering) {
    && k + g.cnt == i <= |es| && g.cnt < BATCH && k % BATCH == 0
    && g.kvs == KeysOf(es[k..i]) && g.out == Batches(es[..k])
  }

  lemma OneMore(es: seq<Entry>, k: nat, i: nat, kvs: Msg)
    requires k <= i < |es| && kvs == KeysOf(es[k..i])
    ensures Keys(kvs.key + [es[i].score], kvs.val + [es[i].val]) == KeysOf(es[k..i + 1])
  {
    assert es[k..i + 1] == es[k..i] + [es[i]];
  }

  lemma NextBatch(es: seq<Entry>, k: nat, i: nat, out: seq<Msg>)
    requires k % BATCH == 0 && k < i <= k + BATCH && i <= |es| && out == Batches(es[..k])
    ensures out + [KeysOf(es[k..i])] == Batches(es[..i])
  {
    BatchesAppend(es[..k], es[k..i]);
    assert es[..k] + es[k..i] == es[..i];
    assert Batches(es[k..i]) == [KeysOf(es[k..i])];
  }

  /** How many members have come together, which, and the batches before them. */
  datatype Gathering = Gathering(cnt: nat, kvs: Msg, out: seq<Msg>)

  /** One member more makes a whole batch, or does not. */
  function Gather(g: Gathering, score: real, val: string): (g': Gathering)
    requires g.kvs.Keys?
    ensures g'.kvs.Keys?
  {
    var kvs := Keys(g.kvs.key + [score], g.kvs.val + [val]);
    if (g.cnt + 1) % BATCH == 0 then Gathering(0, Keys([], []), g.out + [kvs]) else Gathering(g.cnt + 1, kvs, g.out)
  }

  function GatherAll(es: seq<Entry>, i: nat): (g: Gathering)
    requires i <= |es|
    ensures g.kvs.Keys?
  {
    if i == 0 then Gathering(0, Keys([], []), []) else Gather(GatherAll(es, i - 1), es[i - 1].score, es[i - 1].val)
  }

  lemma NoKeys(es: seq<Entry>, i: nat)
    requires i <= |es|
    ensures KeysOf(es[i..i]) == Keys([], [])
  {
    assert es[i..i] == [];
  }

  lemma OneGathered(es: seq<Entry>, k: nat, i: nat, g: Gathering) returns (k': nat)
    requires Gathered(es, k, i, g) && i < |es|
    ensures Gathered(es, k', i + 1, Gather(g, es[i].score, es[i].val))
  {
    OneMore(es, k, i, g.kvs);
    k' := k;
    if (g.cnt + 1) % BATCH == 0 {
      NextBatch(es, k, i + 1, g.out);
      NoKeys(es, i + 1);
      k' := i + 1;
    }
  }

  lemma {:induction false} AllGathered(es: seq<Entry>, i: nat) returns (k: nat)
    requires i <= |es|
    ensures Gathered(es, k, i, GatherAll(es, i))
  {
    k := 0;
    if i > 0 {
      k := AllGathered(es, i - 1);
      k := OneGathered(es, k, i - 1, GatherAll(es, i - 1));
    }
  }

  lemma LastBatch(es: seq<Entry>, k: nat, g: Gathering)
    requires Gathered(es, k, |es|, g) && g.kvs.Keys?
    ensures if |g.kvs.key| > 0 && |g.kvs.val| > 0 then g.out + [g.kvs] == Batches(es) else g.out == Batches(es)
  {
    var all := es[..|es|];
    assert all == es && |g.kvs.key| == |g.kvs.val| == |es| - k;
    if k < |es| {
      NextBatch(es, k, |es|, g.out);
    }
  }

  /** The whole batches, and a smaller one at the end if something is left, are the batches of all members. */
  lemma LastGathered(es: seq<Entry>)
    ensures var g := GatherAll(es, |es|);
      if |g.kvs.key| > 0 && |g.kvs.val| > 0 then g.out + [g.kvs] == Batches(es) else g.out == Batches(es)
  {
    var k := AllGathered(es, |es|);
    LastBatch(es, k, GatherAll(es, |es|));
  }

  /** The loop over the members between two rounds: how many have come together, which, and what stdio has got so
      far. */
  datatype Batching = Batching(cnt: nat, kvs: Msg, st: Stream)

  /** One round: a batch is written whenever 50 have come together. */
  function Round(b: Batching, c: Codec, score: real, val: string): (b': Batching)
    requires b.kvs.Keys?
    ensures b'.kvs.Keys?
  {
    var kvs := Keys(b.kvs.key + [score], b.kvs.val + [val]);
    if (b.cnt + 1) % BATCH == 0 then Batching(0, Keys([], []), PutMsg(b.st, c, kvs)) else Batching(b.cnt + 1, kvs, b.st)
  }

  function Rounds(st: Stream, c: Codec, es: seq<Entry>, i: nat): (b: Batching)
    requires i <= |es|
    ensures b.kvs.Keys?
  {
    if i == 0 then Batching(0, Keys([], []), st) else Round(Rounds(st, c, es, i - 1), c, es[i - 1].score, es[i - 1].val)
  }

  lemma RoundGathers(b: Batching, st: Stream, c: Codec, g: Gathering, score: real, val: string)
    requires g.kvs.Keys? && b == Batching(g.cnt, g.kvs, PutMsgs(st, c, g.out))
    ensures var g' := Gather(g, score, val); Round(b, c, score, val) == Batching(g'.cnt, g'.kvs, PutMsgs(st, c, g'.out))
  {
    var kvs, g' := Keys(g.kvs.key + [score], g.kvs.val + [val]), Gather(g, score, val);
    if (g.cnt + 1) % BATCH == 0 {
      OneMoreMsg(st, c, g.out, kvs);
      assert g' == Gathering(0, Keys([], []), g.out + [kvs]);
    } else {
      assert g' == Gathering(g.cnt + 1, kvs, g.out);
    }
  }

  lemma {:induction false} RoundsGather(st: Stream, c: Codec, es: seq<Entry>, i: nat)
    requires i <= |es|
    ensures var g := GatherAll(es, i); Rounds(st, c, es, i) == Batching(g.cnt, g.kvs, PutMsgs(st, c, g.out))
  {
    if i > 0 {
      RoundsGather(st, c, es, i - 1);
      RoundGathers(Rounds(st, c, es, i - 1), st, c, GatherAll(es, i - 1), es[i - 1].score, es[i - 1].val);
    }
  }

  /** All rounds, and a smaller batch at the end if something is left, write the batches. */
  lemma RoundsBatches(st: Stream, c: Codec, es: seq<Entry>)
    ensures var b := Rounds(st, c, es, |es|);
      (if |b.kvs.key| > 0 && |b.kvs.val| > 0 then PutMsg(b.st, c, b.kvs) else b.st) == PutMsgs(st, c, Batches(es))
  {
    RoundsGather(st, c, es, |es|);
    LastGathered(es);
    var g := GatherAll(es, |es|);
    OneMoreMsg(st, c, g.out, g.kvs);
  }

  /** The i-th node leads to the next one on the lowest level; behind the head, it holds an entry. */
  ghost predicate Joint(ns: seq<Node>, es: seq<Entry>, i: nat)
    requires i < |ns| == |es| + 1
    reads ns
  {
    && |ns[i].level| > 0 && ns[i].level[0].forward == (if i + 1 < |ns| then ns[i + 1] else null)
    && (i > 0 ==> ns[i].score == es[i - 1].score && ns[i].val == es[i - 1].val)
  }

  ghost predicate Joints(ns: seq<Node>, es: seq<Entry>)
    reads ns
  {
    |ns| == |es| + 1 && forall i {:trigger Joint(ns, es, i)} :: 0 <= i < |ns| ==> Joint(ns, es, i)
  }

  lemma ListJoints(sl: SkipList)
    requires sl.Valid() && |sl.order| > 1
    ensures Joints(sl.order, Entries(sl.order)) && sl.head == sl.order[0]
  {
    var ns, es := sl.order, Entries(sl.order);
    assert LevelOk(ns, 0);
    forall i | 0 <= i < |ns| ensures Joint(ns, es, i) {
      NextNode(ns, i);
      assert i > 0 ==> es[i - 1] == EntryOf(ns[i]);
    }
  }

  /** One round of the loop over the members. */
  method Collect(f: File, c: Codec, score: real, val: string, cnt: nat, kvs: Msg) returns (cnt': nat, kvs': Msg)
    requires kvs.Keys?
    modifies f`data, f`room, f`held, f`faults, f`buffered
    ensures Batching(cnt', kvs', f.Out()) == Round(Batching(cnt, kvs, old(f.Out())), c, score, val)
  {
    cnt', kvs' := cnt + 1, Keys(kvs.key + [score], kvs.val + [val]);
    if cnt' % BATCH == 0 {
      var _ := Write(f, c, kvs');
      cnt', kvs' := 0, Keys([], []);
    }
  }

  /** The walk along the list, from its first node to its end. */
  method SaveMembers(f: File, c: Codec, head: Node, ghost ns: seq<Node>, ghost es: seq<Entry>)
    requires Joints(ns, es) && ns[0] == head
    modifies f`data, f`room, f`held, f`faults, f`buffered
    ensures f.Out() == PutMsgs(old(f.Out()), c, Batches(es))
  {
    assert Joint(ns, es, 0);
    var x, cnt, kvs := head.level[0].forward, 0, Keys([], []);
    ghost var i, st := 0, f.Out();
    while x != null
      invariant i <= |es| && x == (if i < |es| then ns[i + 1] else null)
      invariant Batching(cnt, kvs, f.Out()) == Rounds(st, c, es, i)
      decreases |es| - i
    {
      assert Joint(ns, es, i + 1);
      cnt, kvs := Collect(f, c, x.score, x.val, cnt, kvs);
      x, i := x.level[0].forward, i + 1;
    }
    RoundsBatches(st, c, es);
    if |kvs.key| > 0 && |kvs.val| > 0 {
      var _ := Write(f, c, kvs);
    }
  }

  /** A table: its head, and its members unless writing the head failed. */
  method SaveTable(f: File, c: Codec, key: string, size: nat, sl: SkipList)
    requires sl.Valid() && |sl.order| > 1
    modifies f`data, f`room, f`held, f`faults, f`buffered
    ensures f.Out() == PutTable(old(f.Out()), c, key, size, Entries(sl.order))
  {
    ListJoints(sl);
    var n := Write(f, c, TableHead(key, size));
    if n < 0 {
      return;
    }
    SaveMembers(f, c, sl.head, sl.order, Entries(sl.order));
  }

  // ----- a truncated file that is not reported

  const BLOCK: nat := 4096

  /** So many bytes in whole blocks. */
  function Blocks(n: nat): (k: nat)
    ensures k <= n
  {
    if n < BLOCK then 0 else BLOCK + Blocks(n - BLOCK)
  }

  /** stdio with a buffer of one block passes on whole blocks, once more has come together than fits. */
  function InBlocks(held: Bytes, buf: Bytes): nat {
    var n := |held| + |buf|;
    if n <= BLOCK then 0 else Blocks(n)
  }

  lemma PutHolds(st: Stream, buf: Bytes)
    requires st.spill == InBlocks && |st.held| + |buf| <= BLOCK
    ensures Put(st, buf) == st.(held := st.held + buf)
  {
    var all := st.held + buf;
    assert Spilled(st, buf) == 0;
    assert all[..0] == [] && all[0..] == all && st.data + [] == st.data;
  }

  lemma LenHolds(st: Stream, len: nat)
    requires st.spill == InBlocks && len < WORD && |st.held| + |EncodeLen(len)| <= BLOCK
    ensures PutLen(st, len) == st.(held := st.held + EncodeLen(len))
  {
    if len < 16384 {
      PutHolds(st, EncodeLen(len));
    } else {
      PutHolds(st, [BS_32BIT * 64]);
      PutHolds(st.(held := st.held + [BS_32BIT * 64]), Net(len, 4));
      Associate(st.held, [BS_32BIT * 64], Net(len, 4));
    }
  }

  lemma RecordHolds(st: Stream, r: Record)
    requires st.spill == InBlocks && |st.held| + |EncodeRecord(r)| <= BLOCK
    ensures PutRecord(st, r) == st.(held := st.held + EncodeRecord(r))
  {
    var kind, str := [r.kind], r.payload;
    PutHolds(st, kind);
    Associate(st.held, kind, EncodeRaw(str));
    if str == [] {
      assert st.held + kind + [] == st.held + kind;
    } else {
      var code := EncodeLen(|str| % WORD);
      LenHolds(st.(held := st.held + kind), |str| % WORD);
      PutHolds(st.(held := st.held + kind + code), str);
      Associate(st.held + kind, code, str);
    }
  }

  lemma SpilledIs(st: Stream, buf: Bytes)
    requires st.spill == InBlocks && |st.held| + |buf| > BLOCK
    ensures Spilled(st, buf) == Blocks(|st.held| + |buf|)
  {
    assert |st.held + buf| == |st.held| + |buf|;
  }

  lemma PassedLoses(st: Stream, all: Bytes, k: nat)
    requires st.room < k <= |all|
    ensures Passed(st, all[..k], all[k..]).faults == st.faults + 1 && Passed(st, all[..k], all[k..]).held == []
  {
  }

  lemma PutLoses(st: Stream, buf: Bytes)
    requires st.spill == InBlocks && |st.held| + |buf| > BLOCK && Blocks(|st.held| + |buf|) > st.room
    ensures Put(st, buf).faults == st.faults + 1 && Put(st, buf).held == []
  {
    SpilledIs(st, buf);
    PassedLoses(st, st.held + buf, Spilled(st, buf));
  }

  /** Of a payload of some blocks more comes together than the device takes. */
  ghost predicate TooMuch(st: Stream, more: nat) {
    st.spill == InBlocks && |st.held| + more > BLOCK && Blocks(|st.held| + more) > st.room
  }

  lemma CodeShort(len: nat)
    requires len < WORD
    ensures |EncodeLen(len)| <= 5
  {
  }

  lemma RawLoses(st: Stream, str: Bytes)
    requires str != [] && |st.held| + 5 <= BLOCK && TooMuch(st, |EncodeRaw(str)|)
    ensures PutRaw(st, str).faults == st.faults + 1 && PutRaw(st, str).held == []
  {
    var len := |str| % WORD;
    var code := EncodeLen(len);
    var st1 := st.(held := st.held + code);
    CodeShort(len);
    LenHolds(st, len);
    assert |st1.held| + |str| == |st.held| + |code + str|;
    PutLoses(st1, str);
  }

  lemma OneByte(st: Stream, b: Bytes, more: nat)
    requires |b| == 1 && TooMuch(st, 1 + more)
    ensures TooMuch(st.(held := st.held + b), more)
  {
  }

  lemma KindHolds(st: Stream, r: Record)
    requires st.spill == InBlocks && |st.held| + 1 <= BLOCK
    ensures PutRecord(st, r) == PutRaw(st.(held := st.held + [r.kind]), r.payload)
  {
    PutHolds(st, [r.kind]);
  }

  /** The write of such a payload fails, and nothing is held. */
  lemma RecordLost(st: Stream, r: Record)
    requires r.payload != [] && |st.held| + 6 <= BLOCK && TooMuch(st, 1 + |EncodeRaw(r.payload)|)
    ensures PutRecord(st, r).faults == st.faults + 1 && PutRecord(st, r).held == []
  {
    KindHolds(st, r);
    OneByte(st, [r.kind], |EncodeRaw(r.payload)|);
    RawLoses(st.(held := st.held + [r.kind]), r.payload);
  }

  /** The size of a message in the file. */
  function MsgSize(c: Codec, m: Msg): nat {
    |FileOf(c, [m])|
  }

  lemma FourMessages(c: Codec, m0: Msg, m1: Msg, m2: Msg, m3: Msg)
    ensures |FileOf(c, [m0, m1] + [m2, m3])| == MsgSize(c, m0) + MsgSize(c, m1) + MsgSize(c, m2) + MsgSize(c, m3)
  {
    FileAppend(c, [m0], [m1]);
    FileAppend(c, [m2], [m3]);
    FileAppend(c, [m0, m1], [m2, m3]);
    assert [m0, m1] == [m0] + [m1] && [m2, m3] == [m2] + [m3];
  }

  lemma MsgHolds(st: Stream, c: Codec, m: Msg)
    requires st.spill == InBlocks && |st.held| + |FileOf(c, [m])| <= BLOCK && c.ser(m) != []
    ensures PutMsg(st, c, m) == st.(held := st.held + FileOf(c, [m])) && Accepted(st, c, m)
  {
    FileOne(c, m);
    RecordHolds(st, RecordOf(c, m));
  }

  lemma BatchLost(st: Stream, c: Codec, key: string, size: nat, es: seq<Entry>, n: nat)
    requires st.spill == InBlocks && 0 < |es| <= BATCH && c.ser(TableHead(key, size)) != [] && c.ser(KeysOf(es)) != []
    requires |st.held| + MsgSize(c, TableHead(key, size)) + 6 <= BLOCK
    requires n == |st.held| + MsgSize(c, TableHead(key, size)) + MsgSize(c, KeysOf(es)) > BLOCK && Blocks(n) > st.room
    ensures PutTable(st, c, key, size, es).faults == st.faults + 1 && PutTable(st, c, key, size, es).held == []
  {
    var head, batch := TableHead(key, size), KeysOf(es);
    var st1 := st.(held := st.held + FileOf(c, [head]));
    MsgHolds(st, c, head);
    FileOne(c, batch);
    RecordLost(st1, RecordOf(c, batch));
    assert Batches(es) == [batch] && [batch][..0] == [];
    assert PutMsgs(st1, c, [batch]) == PutMsg(PutMsgs(st1, c, []), c, batch);
  }

  function HeadSize(c: Codec, time: string): nat {
    MsgSize(c, HeadMsgs(time)[0]) + MsgSize(c, HeadMsgs(time)[1])
  }

  lemma HeadHolds(st: Stream, c: Codec, time: string)
    requires st.spill == InBlocks && st.held == [] && HeadFilled(c, time)
    requires HeadSize(c, time) <= BLOCK
    ensures PutHead(st, c, time) == (st.(held := FileOf(c, [HeadMsgs(time)[0]]) + FileOf(c, [HeadMsgs(time)[1]])), true)
  {
    var version, num := HeadMsgs(time)[0], HeadMsgs(time)[1];
    var bytes := FileOf(c, [version]);
    assert [] + bytes == bytes;
    MsgHolds(st, c, version);
    MsgHolds(st.(held := bytes), c, num);
  }

  lemma OneTable(st: Stream, c: Codec, key: string, size: nat, es: seq<Entry>)
    ensures PutTables(st, c, map[key := es], map[key := size], [key]) == PutTable(st, c, key, size, es)
  {
    assert [key][..0] == [];
  }

  lemma OneTableMsgs(c: Codec, key: string, size: nat, es: seq<Entry>)
    requires 0 < |es| <= BATCH && c.ser(TableHead(key, size)) != []
    ensures AllTableMsgs(c, map[key := es], map[key := size], [key]) == [TableHead(key, size), KeysOf(es)]
  {
    var ts, sizes := map[key := es], map[key := size];
    assert [key][..0] == [] && AllTableMsgs(c, ts, sizes, []) == [];
    assert Batches(es) == [KeysOf(es)];
  }

  lemma OneTableSize(c: Codec, key: string, size: nat, es: seq<Entry>, time: string)
    requires 0 < |es| <= BATCH && c.ser(TableHead(key, size)) != []
    ensures |FileOf(c, DbMsgs(c, map[key := es], map[key := size], [key], time))|
         == HeadSize(c, time) + MsgSize(c, TableHead(key, size)) + MsgSize(c, KeysOf(es))
  {
    OneTableMsgs(c, key, size, es);
    FourMessages(c, HeadMsgs(time)[0], HeadMsgs(time)[1], TableHead(key, size), KeysOf(es));
  }

  lemma OneTablePut(st0: Stream, c: Codec, key: string, size: nat, es: seq<Entry>, time: string)
      returns (st1: Stream, st: Stream)
    requires st0.spill == InBlocks && st0.held == [] && HeadFilled(c, time) && HeadSize(c, time) <= BLOCK
    ensures st1 == st0.(held := st1.held) && |st1.held| == HeadSize(c, time) && st == PutTable(st1, c, key, size, es)
    ensures PutDb(st0, c, map[key := es], map[key := size], [key], time) == (st, true)
  {
    HeadHolds(st0, c, time);
    st1 := PutHead(st0, c, time).0;
    st := PutTable(st1, c, key, size, es);
    OneTable(st1, c, key, size, es);
  }

  /** On a device that takes less than the blocks of the one big batch of the only table, the write of that batch fails
      unheeded; with nothing left to flush, saving answers 0, and the file is truncated. */
  lemma TruncatedAnswersZero(c: Codec, key: string, es: seq<Entry>, size: nat, time: string, st0: Stream, n: nat)
      returns (st: Stream)
    requires 0 < |es| <= BATCH && HeadFilled(c, time) && c.ser(TableHead(key, size)) != [] && c.ser(KeysOf(es)) != []
    requires Opened(st0, st0.room) && st0.spill == InBlocks
    requires HeadSize(c, time) + MsgSize(c, TableHead(key, size)) + 6 <= BLOCK
    requires n == HeadSize(c, time) + MsgSize(c, TableHead(key, size)) + MsgSize(c, KeysOf(es)) > BLOCK
    requires Blocks(n) > st0.room
    ensures PutDb(st0, c, map[key := es], map[key := size], [key], time) == (st, true) && st.faults > 0 && st.held == []
    ensures Overflows(c, DbMsgs(c, map[key := es], map[key := size], [key], time), st0.room)
  {
    OneTableSize(c, key, size, es, time);
    var st1;
    st1, st := OneTablePut(st0, c, key, size, es, time);
    BatchLost(st1, c, key, size, es, n);
  }
}
