/**
  A codec for the messages of a database file that reads every one of them back whose scores are finite doubles.
  It stands in for the protobuf encoding and shows that what saving and loading ask of a codec can be met.
 */
module DbCodec {
  import opened SkipLists
  import opened Records
  import opened DbFile
  import opened DbSpec
  import opened Powers
  import opened Sldb

  // ----- numbers, strings and lists

  /** A number of any size: its digits to the base 255, the low ones first, and a 255 at the end. */
  function NatBytes(n: nat): (s: Bytes)
    ensures s != []
  {
    if n == 0 then [255] else [n % 255] + NatBytes(n / 255)
  }

  /** A value and the bytes after it. */
  datatype Got<T> = Nothing | Got(value: T, rest: Bytes)

  function ReadNat(s: Bytes): (g: Got<nat>) {
    if s == [] then Nothing
    else if s[0] == 255 then Got(0, s[1..])
    else
      var g := ReadNat(s[1..]);
      if g.Nothing? then Nothing else Got(g.value * 255 + s[0] as int, g.rest)
  }

  lemma {:induction false} NatBack(n: nat, rest: Bytes)
    ensures ReadNat(NatBytes(n) + rest) == Got(n, rest)
  {
    var s := NatBytes(n) + rest;
    if n == 0 {
      assert s[1..] == rest;
    } else {
      assert s[1..] == NatBytes(n / 255) + rest;
      NatBack(n / 255, rest);
    }
  }

  /** A number of k bits takes at most k + 1 bytes. */
  lemma {:induction false} NatShort(n: nat, k: nat)
    requires n < Pow2(k)
    ensures |NatBytes(n)| <= k + 1
  {
    if n > 0 {
      assert n / 255 < Pow2(k - 1);
      NatShort(n / 255, k - 1);
    }
  }

  /** The bytes of a list, each element preceded by a 1, and a 0 at the end. */
  function ListBytes<T>(xs: seq<T>, enc: T -> Bytes): (s: Bytes)
    ensures s != []
  {
    if xs == [] then [0] else [1] + enc(xs[0]) + ListBytes(xs[1..], enc)
  }

  /** Reads a list; an element that does not make the rest shorter is an error. */
  function ReadList<T>(s: Bytes, dec: Bytes -> Got<T>): (g: Got<seq<T>>)
    decreases |s|
  {
    if s == [] then Nothing
    else if s[0] == 0 then Got([], s[1..])
    else
      var x := dec(s[1..]);
      if x.Nothing? || |x.rest| >= |s| then Nothing
      else
        var g := ReadList(x.rest, dec);
        if g.Nothing? then Nothing else Got([x.value] + g.value, g.rest)
  }

  /** The decoder reads back what the encoder wrote for this element, whatever follows. */
  ghost predicate Back<T(!new)>(x: T, enc: T -> Bytes, dec: Bytes -> Got<T>) {
    forall rest: Bytes {:trigger enc(x) + rest} :: dec(enc(x) + rest) == Got(x, rest)
  }

  lemma {:induction false} ListBack<T(!new)>(xs: seq<T>, enc: T -> Bytes, dec: Bytes -> Got<T>, rest: Bytes)
    requires forall i {:trigger xs[i]} :: 0 <= i < |xs| ==> Back(xs[i], enc, dec)
    ensures ReadList(ListBytes(xs, enc) + rest, dec) == Got(xs, rest)
  {
    var s := ListBytes(xs, enc) + rest;
    if xs == [] {
      assert s[1..] == rest;
    } else {
      var more := ListBytes(xs[1..], enc) + rest;
      assert s[1..] == enc(xs[0]) + more;
      assert Back(xs[0], enc, dec);
      ListBack(xs[1..], enc, dec, rest);
      assert [xs[0]] + xs[1..] == xs;
    }
  }

  lemma {:induction false} ListShort<T(!new)>(xs: seq<T>, enc: T -> Bytes, each: nat)
    requires forall i {:trigger xs[i]} :: 0 <= i < |xs| ==> |enc(xs[i])| <= each
    ensures |ListBytes(xs, enc)| <= |xs| * (each + 1) + 1
  {
    if xs != [] {
      ListShort(xs[1..], enc, each);
      assert |xs| * (each + 1) == (|xs| - 1) * (each + 1) + (each + 1);
    }
  }

  function CharBytes(c: char): Bytes {
    NatBytes(c as int)
  }

  function ReadChar(s: Bytes): Got<char> {
    var g := ReadNat(s);
    if g.Nothing? || !(g.value < 0xD800 || 0xE000 <= g.value < 0x11_0000) then Nothing else Got(g.value as char, g.rest)
  }

  function StringBytes(t: string): (s: Bytes)
    ensures s != []
  {
    ListBytes(t, CharBytes)
  }

  function ReadString(s: Bytes): Got<string> {
    ReadList(s, ReadChar)
  }

  lemma CharBack(c: char)
    ensures Back(c, CharBytes, ReadChar)
  {
    forall rest: Bytes ensures ReadChar(CharBytes(c) + rest) == Got(c, rest) {
      NatBack(c as int, rest);
    }
  }

  lemma StringBack(t: string)
    ensures Back(t, StringBytes, ReadString)
  {
    forall rest: Bytes ensures ReadString(StringBytes(t) + rest) == Got(t, rest) {
      forall i | 0 <= i < |t| ensures Back(t[i], CharBytes, ReadChar) {
        CharBack(t[i]);
      }
      ListBack(t, CharBytes, ReadChar, rest);
    }
  }

  // ----- scores

  /** Every finite double is a whole multiple of 2^-1074 and smaller than 2^1024. */
  function Scale(): (r: real)
    ensures r > 0.0
  {
    PowGrows(0, 1074);
    Pow2(1074) as real
  }

  function Ticks(x: real): int {
    (x * Scale()).Floor
  }

  predicate IsDouble(x: real) {
    Ticks(x) as real == x * Scale() && 0 - Pow2(2098) < Ticks(x) < Pow2(2098)
  }

  function IntBytes(n: int): Bytes {
    if n < 0 then [1] + NatBytes(-n) else [0] + NatBytes(n)
  }

  function ReadInt(s: Bytes): Got<int> {
    if s == [] then Nothing
    else
      var g := ReadNat(s[1..]);
      if g.Nothing? then Nothing else Got(if s[0] == 1 then 0 - g.value else g.value, g.rest)
  }

  lemma IntBack(n: int, rest: Bytes)
    ensures ReadInt(IntBytes(n) + rest) == Got(n, rest)
  {
    var m := if n < 0 then -n else n;
    assert (IntBytes(n) + rest)[1..] == NatBytes(m) + rest;
    NatBack(m, rest);
  }

  function ScoreBytes(x: real): Bytes {
    IntBytes(Ticks(x))
  }

  function OfTicks(n: int): real {
    n as real / Scale()
  }

  function ReadScore(s: Bytes): Got<real> {
    var g := ReadInt(s);
    if g.Nothing? then Nothing else Got(OfTicks(g.value), g.rest)
  }

  lemma Divides(n: real, x: real, scale: real)
    requires scale > 0.0 && n == x * scale
    ensures n / scale == x
  {
  }

  lemma TicksBack(x: real)
    requires IsDouble(x)
    ensures OfTicks(Ticks(x)) == x
  {
    Divides(Ticks(x) as real, x, Scale());
  }

  lemma ScoreBack(x: real)
    requires IsDouble(x)
    ensures Back(x, ScoreBytes, ReadScore)
  {
    TicksBack(x);
    forall rest: Bytes ensures ReadScore(ScoreBytes(x) + rest) == Got(x, rest) {
      IntBack(Ticks(x), rest);
    }
  }

  lemma ScoreShort(x: real)
    requires IsDouble(x)
    ensures |ScoreBytes(x)| <= 2100
  {
    var n := Ticks(x);
    NatShort(if n < 0 then -n else n, 2098);
  }

  // ----- messages

  function Ser(m: Msg): Bytes {
    if Default(m) then []
    else
      match m
      case Version(v, a, t) => StringBytes(v) + (StringBytes(a) + StringBytes(t))
      case DbNum(n) => NatBytes(n)
      case TableHead(key, n) => StringBytes(key) + NatBytes(n)
      case Keys(ks, vs) => ListBytes(ks, ScoreBytes) + ListBytes(vs, StringBytes)
  }

  function ParseVersion(p: Bytes): Option<Msg> {
    var v := ReadString(p);
    if v.Nothing? then None
    else
      var a := ReadString(v.rest);
      if a.Nothing? then None
      else
        var t := ReadString(a.rest);
        if t.Nothing? then None else Some(Version(v.value, a.value, t.value))
  }

  function ParseHead(p: Bytes): Option<Msg> {
    var key := ReadString(p);
    if key.Nothing? then None
    else
      var n := ReadNat(key.rest);
      if n.Nothing? then None else Some(TableHead(key.value, n.value))
  }

  function ParseKeys(p: Bytes): Option<Msg> {
    var ks := ReadList(p, ReadScore);
    if ks.Nothing? then None
    else
      var vs := ReadList(ks.rest, ReadString);
      if vs.Nothing? then None else Some(Keys(ks.value, vs.value))
  }

  function Parse(kind: byte, p: Bytes): Option<Msg> {
    if kind == 0 then if p == [] then Some(Version("", "", "")) else ParseVersion(p)
    else if kind == 1 then
      var n := ReadNat(p);
      if p == [] then Some(DbNum(0)) else if n.Nothing? then None else Some(DbNum(n.value))
    else if kind == 2 then if p == [] then Some(TableHead("", 0)) else ParseHead(p)
    else if kind == 3 then if p == [] then Some(Keys([], [])) else ParseKeys(p)
    else None
  }

  const PLAIN: Codec := Codec(Ser, Parse)

  predicate DoubleScores(m: Msg) {
    m.Keys? ==> forall i {:trigger m.key[i]} :: 0 <= i < |m.key| ==> IsDouble(m.key[i])
  }

  lemma VersionBack(v: string, a: string, t: string)
    ensures ParseVersion(StringBytes(v) + (StringBytes(a) + StringBytes(t))) == Some(Version(v, a, t))
  {
    StringBack(v);
    StringBack(a);
    StringBack(t);
    assert StringBytes(v) + (StringBytes(a) + StringBytes(t))
      == StringBytes(v) + (StringBytes(a) + (StringBytes(t) + []));
  }

  lemma HeadBack(key: string, n: nat)
    ensures ParseHead(StringBytes(key) + NatBytes(n)) == Some(TableHead(key, n))
  {
    StringBack(key);
    NatBack(n, []);
    assert NatBytes(n) + [] == NatBytes(n);
  }

  lemma KeysBack(ks: seq<real>, vs: seq<string>)
    requires forall i {:trigger ks[i]} :: 0 <= i < |ks| ==> IsDouble(ks[i])
    ensures ParseKeys(ListBytes(ks, ScoreBytes) + ListBytes(vs, StringBytes)) == Some(Keys(ks, vs))
  {
    forall i | 0 <= i < |ks| ensures Back(ks[i], ScoreBytes, ReadScore) {
      ScoreBack(ks[i]);
    }
    forall i | 0 <= i < |vs| ensures Back(vs[i], StringBytes, ReadString) {
      StringBack(vs[i]);
    }
    ListBack(ks, ScoreBytes, ReadScore, ListBytes(vs, StringBytes));
    ListBack(vs, StringBytes, ReadString, []);
    assert ListBytes(vs, StringBytes) + [] == ListBytes(vs, StringBytes);
  }

  /** The codec reads back every message whose scores are doubles, and writes nothing for defaults only. */
  lemma PlainCodes(m: Msg)
    requires DoubleScores(m)
    ensures Codes(PLAIN, m)
  {
    match m
    case Version(v, a, t) => VersionBack(v, a, t);
    case DbNum(n) =>
      NatBack(n, []);
      assert NatBytes(n) + [] == NatBytes(n);
    case TableHead(key, n) => HeadBack(key, n);
    case Keys(ks, vs) => KeysBack(ks, vs);
  }

  // ----- the round trip without any assumption about a codec

  const MODEST: nat := 1_000_000

  lemma CharBits()
    ensures Pow2(21) == 0x20_0000
  {
    assert Pow2(3) == 8 && Pow2(4) == 16;
    PowAdd(3, 4);
    PowAdd(7, 7);
    PowAdd(14, 7);
  }

  lemma StringShort(t: string)
    ensures |StringBytes(t)| <= 23 * |t| + 1
  {
    CharBits();
    forall i | 0 <= i < |t| ensures |CharBytes(t[i])| <= 22 {
      NatShort(t[i] as int, 21);
    }
    ListShort(t, CharBytes, 22);
  }

  /** A message with doubles for scores that is short enough to be stored. */
  predicate Fine(m: Msg) {
    DoubleScores(m) && |Ser(m)| < LEN_ERR
  }

  predicate AllFine(ms: seq<Msg>) {
    forall i {:trigger ms[i]} :: 0 <= i < |ms| ==> Fine(ms[i])
  }

  lemma AllFineAppend(a: seq<Msg>, b: seq<Msg>)
    requires AllFine(a) && AllFine(b)
    ensures AllFine(a + b)
  {
  }

  predicate ModestEntries(es: seq<Entry>) {
    forall i {:trigger es[i]} :: 0 <= i < |es| ==> IsDouble(es[i].score) && |es[i].val| <= MODEST
  }

  lemma VersionFine(v: string, a: string, t: string)
    requires |v| <= MODEST && |a| <= MODEST && |t| <= MODEST
    ensures Fine(Version(v, a, t))
  {
    StringShort(v);
    StringShort(a);
    StringShort(t);
  }

  lemma HeadFine(key: string, n: nat)
    requires |key| <= MODEST && n < Pow2(64)
    ensures Fine(TableHead(key, n)) && Fine(DbNum(n))
  {
    StringShort(key);
    NatShort(n, 64);
  }

  lemma ScoresFine(es: seq<Entry>)
    requires ModestEntries(es)
    ensures DoubleScores(KeysOf(es)) && |ListBytes(Scores(es), ScoreBytes)| <= |es| * 2101 + 1
  {
    var ks := Scores(es);
    forall i | 0 <= i < |ks| ensures IsDouble(ks[i]) && |ScoreBytes(ks[i])| <= 2100 {
      assert ks[i] == es[i].score;
      ScoreShort(ks[i]);
    }
    ListShort(ks, ScoreBytes, 2100);
  }

  lemma ValsFine(es: seq<Entry>)
    requires ModestEntries(es)
    ensures |ListBytes(Vals(es), StringBytes)| <= |es| * (23 * MODEST + 2) + 1
  {
    var vs := Vals(es);
    forall i | 0 <= i < |vs| ensures |StringBytes(vs[i])| <= 23 * MODEST + 1 {
      assert vs[i] == es[i].val;
      StringShort(vs[i]);
    }
    ListShort(vs, StringBytes, 23 * MODEST + 1);
  }

  lemma KeysFine(es: seq<Entry>)
    requires ModestEntries(es) && |es| <= BATCH
    ensures Fine(KeysOf(es))
  {
    ScoresFine(es);
    ValsFine(es);
  }

  lemma {:induction false} BatchesFine(es: seq<Entry>)
    requires ModestEntries(es)
    ensures AllFine(Batches(es))
  {
    if |es| > BATCH {
      KeysFine(es[..BATCH]);
      BatchesFine(es[BATCH..]);
      AllFineAppend([KeysOf(es[..BATCH])], Batches(es[BATCH..]));
    } else {
      KeysFine(es);
    }
  }

  /** Keys and members of at most a million characters, doubles for scores, a length of 64 bits. */
  predicate Modest(ts: Tables, sizes: Sizes, key: string) {
    key in ts && |key| <= MODEST && SizeOf(sizes, key) < Pow2(64) && ModestEntries(ts[key])
  }

  lemma {:induction false} TablesFine(ts: Tables, sizes: Sizes, order: seq<string>)
    requires forall i {:trigger order[i]} :: 0 <= i < |order| ==> order[i] in ts && Modest(ts, sizes, order[i])
    ensures AllFine(AllTableMsgs(PLAIN, ts, sizes, order))
  {
    if order != [] {
      var n := |order| - 1;
      var key := order[n];
      TablesFine(ts, sizes, order[..n]);
      HeadFine(key, SizeOf(sizes, key));
      BatchesFine(ts[key]);
      var batches := if PLAIN.ser(TableHead(key, SizeOf(sizes, key))) == [] then [] else Batches(ts[key]);
      AllFineAppend([TableHead(key, SizeOf(sizes, key))], batches);
      AllFineAppend(AllTableMsgs(PLAIN, ts, sizes, order[..n]), TableMsgs(PLAIN, key, SizeOf(sizes, key), ts[key]));
    }
  }

  lemma StartFine(time: string)
    requires |time| <= MODEST
    ensures AllFine(HeadMsgs(time))
  {
    var ms := HeadMsgs(time);
    VersionFine("BIS_V1", "CaiZhiLi", time);
    forall i | 0 <= i < |ms| ensures Fine(ms[i]) {
      assert i == 0 || ms[i] == ms[1];
    }
  }

  lemma DbFine(ts: Tables, sizes: Sizes, order: seq<string>, time: string)
    requires |time| <= MODEST
    requires forall i {:trigger order[i]} :: 0 <= i < |order| ==> order[i] in ts && Modest(ts, sizes, order[i])
    ensures AllFine(DbMsgs(PLAIN, ts, sizes, order, time))
  {
    StartFine(time);
    TablesFine(ts, sizes, order);
    AllFineAppend(HeadMsgs(time), AllTableMsgs(PLAIN, ts, sizes, order));
  }

  lemma FineCodes(ms: seq<Msg>)
    requires AllFine(ms)
    ensures CodesAll(PLAIN, ms) && forall m {:trigger PLAIN.ser(m)} :: m in ms ==> |PLAIN.ser(m)| < LEN_ERR
  {
    forall i | 0 <= i < |ms| ensures Codes(PLAIN, ms[i]) {
      assert Fine(ms[i]);
      PlainCodes(ms[i]);
    }
    forall m | m in ms ensures |PLAIN.ser(m)| < LEN_ERR {
      var i :| 0 <= i < |ms| && ms[i] == m;
      assert Fine(ms[i]);
    }
  }

  /** With this codec, every database of such tables comes back from its file with the first entry of every member, and
      so as it was exactly where no member stands twice. */
  lemma DoublesSaveThenLoad(ts: Tables, sizes: Sizes, order: seq<string>, time: string, lvl: nat -> nat)
    requires DistinctKeys(order) && (forall k {:trigger k in ts} :: k in ts <==> k in order) && |time| <= MODEST
    requires forall i {:trigger order[i]} :: 0 <= i < |order| ==>
      order[i] in ts && Savable(ts, sizes, order[i]) && Modest(ts, sizes, order[i])
    ensures var (st, ret) := LoadFrom(PLAIN, Loading(map[], None, 0),
        FileOf(PLAIN, DbMsgs(PLAIN, ts, sizes, order, time)), lvl);
      && ret == 0 && st.ts.Keys == ts.Keys
      && (forall k {:trigger ts[k]} :: k in ts ==> SamePairs(st.ts[k], FirstOnes(ts[k])))
      && (forall k {:trigger ts[k]} :: k in ts ==> (SamePairs(st.ts[k], ts[k]) <==> Once(ts[k])))
  {
    DbFine(ts, sizes, order, time);
    FineCodes(DbMsgs(PLAIN, ts, sizes, order, time));
    SaveThenLoad(PLAIN, ts, sizes, order, time, lvl);
  }

  lemma OneIsDouble()
    ensures IsDouble(0.0) && IsDouble(1.0)
  {
    PowGrows(1074, 2098);
    assert Ticks(1.0) == Pow2(1074);
  }

  /** One such database, with a score of one. */
  lemma OneTableSaveThenLoad(lvl: nat -> nat)
    ensures var ts := map["k" := [Entry(0.0, "a", 1), Entry(1.0, "b", 1)]];
      var (st, ret) := LoadFrom(PLAIN, Loading(map[], None, 0),
        FileOf(PLAIN, DbMsgs(PLAIN, ts, map["k" := 2], ["k"], "")), lvl);
      ret == 0 && "k" in st.ts && SamePairs(st.ts["k"], ts["k"])
  {
    var ts: Tables, sizes: Sizes := map["k" := [Entry(0.0, "a", 1), Entry(1.0, "b", 1)]], map["k" := 2];
    OneIsDouble();
    assert "a"[0] != "b"[0] && ByScore(ts["k"]) && Once(ts["k"]);
    assert Pow2(2) == 4;
    PowGrows(2, 64);
    assert Modest(ts, sizes, "k") && Savable(ts, sizes, "k");
    assert ts["k"] == ts["k"];
    DoublesSaveThenLoad(ts, sizes, ["k"], "", lvl);
  }

  // ----- a file that is truncated unheeded

  lemma {:induction false} ListLong<T(!new)>(xs: seq<T>, enc: T -> Bytes)
    ensures |ListBytes(xs, enc)| > |xs|
  {
    if xs != [] {
      ListLong(xs[1..], enc);
    }
  }

  lemma RecordSize(m: Msg)
    ensures |Ser(m)| < MsgSize(PLAIN, m) <= |Ser(m)| + 6
  {
    FileOne(PLAIN, m);
    if Ser(m) != [] {
      CodeShort(|Ser(m)| % WORD);
    }
  }

  lemma VersionSmall()
    ensures 0 < |Ser(Version("BIS_V1", "CaiZhiLi", ""))| <= 330
  {
    StringShort("BIS_V1");
    StringShort("CaiZhiLi");
    StringShort("");
  }

  lemma StartSmall()
    ensures HeadFilled(PLAIN, "") && HeadSize(PLAIN, "") <= 400
    ensures Ser(TableHead("k", 1)) != [] && MsgSize(PLAIN, TableHead("k", 1)) <= 100
  {
    VersionSmall();
    StringShort("k");
    assert NatBytes(1) == [1] + NatBytes(0);
    RecordSize(HeadMsgs("")[0]);
    RecordSize(HeadMsgs("")[1]);
    RecordSize(TableHead("k", 1));
  }

  lemma {:induction false} BlocksMany(n: nat)
    ensures Blocks(n) > n - BLOCK
  {
    if n >= BLOCK {
      BlocksMany(n - BLOCK);
    }
  }

  lemma BigBatch(val: string)
    requires |val| == 10_000
    ensures var batch := KeysOf([Entry(0.0, val, 1)]); PLAIN.ser(batch) != [] && MsgSize(PLAIN, batch) > 10_000
  {
    var es := [Entry(0.0, val, 1)];
    var batch := KeysOf(es);
    assert batch.val == [val] && ListBytes([val], StringBytes) == [1] + StringBytes(val) + ListBytes([], StringBytes);
    ListLong(val, CharBytes);
    RecordSize(batch);
  }

  /** The write that fails is that of the only batch, with a member of ten thousand characters, on a device that takes
      five thousand bytes. */
  lemma TruncatedFile(val: string, st0: Stream) returns (st: Stream)
    requires |val| == 10_000 && Opened(st0, 5000) && st0.spill == InBlocks
    ensures var (ts, sizes) := (map["k" := [Entry(0.0, val, 1)]], map["k" := 1]);
      && Overflows(PLAIN, DbMsgs(PLAIN, ts, sizes, ["k"], ""), 5000)
      && PutDb(st0, PLAIN, ts, sizes, ["k"], "") == (st, true) && st.faults > 0 && st.held == []
  {
    var es := [Entry(0.0, val, 1)];
    var n := HeadSize(PLAIN, "") + MsgSize(PLAIN, TableHead("k", 1)) + MsgSize(PLAIN, KeysOf(es));
    BigBatch(val);
    StartSmall();
    BlocksMany(n);
    st := TruncatedAnswersZero(PLAIN, "k", es, 1, "", st0, n);
  }
}
