/** What saving and loading a database mean: the messages of a file, and what each does to the tables. */
module DbSpec {
  import opened SkipLists
  import opened SortSets
  import opened Records

  /** The messages of a database file. Their encoding as payloads is the business of a codec. */
  datatype Msg =
    | Version(version: string, auth: string, save_time: string)
    | DbNum(num: nat)
    | TableHead(key_id: string, length: nat)
    | Keys(key: seq<real>, val: seq<string>)

  function Kind(m: Msg): byte {
    match m case Version(_, _, _) => 0 case DbNum(_) => 1 case TableHead(_, _) => 2 case Keys(_, _) => 3
  }

  datatype Codec = Codec(ser: Msg -> Bytes, parse: (byte, Bytes) -> Option<Msg>)

  /** All fields have their default values, which are not written. */
  predicate Default(m: Msg) {
    match m
    case Version(v, a, t) => v == "" && a == "" && t == ""
    case DbNum(n) => n == 0
    case TableHead(key, n) => key == "" && n == 0
    case Keys(ks, vs) => ks == [] && vs == []
  }

  /** The payload of this message parses back as the message, and is empty only for defaults. */
  predicate Codes(c: Codec, m: Msg) {
    c.parse(Kind(m), c.ser(m)) == Some(m) && (c.ser(m) == [] <==> Default(m))
  }

  predicate CodesAll(c: Codec, ms: seq<Msg>) {
    forall i {:trigger ms[i]} :: 0 <= i < |ms| ==> Codes(c, ms[i])
  }

  function RecordOf(c: Codec, m: Msg): Record {
    Record(Kind(m), c.ser(m))
  }

  function RecordsOf(c: Codec, ms: seq<Msg>): (rs: seq<Record>)
    ensures |rs| == |ms|
  {
    if ms == [] then [] else [RecordOf(c, ms[0])] + RecordsOf(c, ms[1..])
  }

  function FileOf(c: Codec, ms: seq<Msg>): Bytes {
    EncodeAll(RecordsOf(c, ms))
  }

  lemma {:induction false} FileAppend(c: Codec, a: seq<Msg>, b: seq<Msg>)
    ensures FileOf(c, a + b) == FileOf(c, a) + FileOf(c, b)
  {
    if a == [] {
      assert a + b == b;
    } else {
      assert (a + b)[1..] == a[1..] + b && (a + b)[0] == a[0];
      FileAppend(c, a[1..], b);
    }
  }

  lemma FileOne(c: Codec, m: Msg)
    ensures FileOf(c, [m]) == EncodeRecord(RecordOf(c, m))
  {
    assert RecordsOf(c, [m]) == [RecordOf(c, m)];
    assert EncodeAll([RecordOf(c, m)]) == EncodeRecord(RecordOf(c, m)) + EncodeAll([]);
  }

  // ----- saving

  function Scores(es: seq<Entry>): seq<real> {
    seq(|es|, i requires 0 <= i < |es| => es[i].score)
  }

  function Vals(es: seq<Entry>): seq<string> {
    seq(|es|, i requires 0 <= i < |es| => es[i].val)
  }

  const BATCH: nat := 50

  function KeysOf(es: seq<Entry>): Msg {
    Keys(Scores(es), Vals(es))
  }

  /** The members in batches of 50, the last of which may be smaller. */
  function Batches(es: seq<Entry>): seq<Msg> {
    if es == [] then []
    else if |es| <= BATCH then [KeysOf(es)]
    else [KeysOf(es[..BATCH])] + Batches(es[BATCH..])
  }

  lemma {:induction false} BatchesAppend(a: seq<Entry>, b: seq<Entry>)
    requires |a| % BATCH == 0
    ensures Batches(a + b) == Batches(a) + Batches(b)
    decreases |a|
  {
    if a == [] {
      assert a + b == b;
    } else {
      assert |a| >= BATCH;
      BatchesAppend(a[BATCH..], b);
      assert (a + b)[..BATCH] == a[..BATCH] && (a + b)[BATCH..] == a[BATCH..] + b;
      if b == [] {
        assert a + b == a;
      } else if |a| == BATCH {
        assert a[..BATCH] == a && a[BATCH..] == [];
      }
    }
  }

  /** What is written for a table: nothing more when its head has no payload. */
  function TableMsgs(c: Codec, key: string, size: nat, es: seq<Entry>): seq<Msg> {
    [TableHead(key, size)] + if c.ser(TableHead(key, size)) == [] then [] else Batches(es)
  }

  type Tables = map<string, seq<Entry>>

  /** The recorded length of each table. */
  type Sizes = map<string, nat>

  function SizeOf(sizes: Sizes, key: string): nat {
    if key in sizes then sizes[key] else 0
  }

  function AllTableMsgs(c: Codec, ts: Tables, sizes: Sizes, order: seq<string>): seq<Msg>
    requires forall i {:trigger order[i]} :: 0 <= i < |order| ==> order[i] in ts
  {
    if order == [] then []
    else
      var n := |order| - 1;
      AllTableMsgs(c, ts, sizes, order[..n]) + TableMsgs(c, order[n], SizeOf(sizes, order[n]), ts[order[n]])
  }

  // ----- loading

  /** The tables, the table being filled, and how many levels have been drawn. */
  datatype Loading = Loading(ts: Tables, cur: Option<string>, draws: nat)

  /** The effect of sort_set::Insert on the entries, as SortSets.SortSet.Insert has it. */
  function Added(es: seq<Entry>, e: Entry): seq<Entry> {
    if HasMember(es, e.val) then es else WithEntry(es, e)
  }

  /** The members of a message are inserted from the i-th on; lvl(n) is the n-th level drawn. */
  function Filled(es: seq<Entry>, draws: nat, m: Msg, i: nat, lvl: nat -> nat): (seq<Entry>, nat)
    requires m.Keys?
    decreases |m.key| - i
  {
    if i < |m.key| && i < |m.val| then
      var draws' := if HasMember(es, m.val[i]) then draws else draws + 1;
      Filled(Added(es, Entry(m.key[i], m.val[i], lvl(draws))), draws', m, i + 1, lvl)
    else (es, draws)
  }

  /** What a message does. */
  function Take(st: Loading, m: Msg, lvl: nat -> nat): Loading {
    match m
    case TableHead(key, _) => st.(ts := if key in st.ts then st.ts else st.ts[key := []], cur := Some(key))
    case Keys(_, _) =>
      if st.cur.Some? && st.cur.value in st.ts then
        var (es, draws) := Filled(st.ts[st.cur.value], st.draws, m, 0, lvl);
        Loading(st.ts[st.cur.value := es], st.cur, draws)
      else st
    case _ => st
  }

  lemma TakesKeys(st: Loading, m: Msg, key: string, es: seq<Entry>, draws: nat, lvl: nat -> nat)
    requires m.Keys? && st.cur == Some(key) && key in st.ts
    ensures Take(st, m, lvl).ts.Keys == st.ts.Keys && Take(st, m, lvl).cur == st.cur
    ensures (es, draws) == Filled(st.ts[key], st.draws, m, 0, lvl) ==>
      Take(st, m, lvl) == Loading(st.ts[key := es], st.cur, draws)
  {
  }

  lemma TakesHead(st: Loading, key: string, n: nat, lvl: nat -> nat)
    ensures var st' := Take(st, TableHead(key, n), lvl);
      && st'.cur == Some(key) && st'.draws == st.draws && st'.ts.Keys == st.ts.Keys + {key}
      && st'.ts == if key in st.ts then st.ts else st.ts[key := []]
  {
  }

  function TakeAll(st: Loading, ms: seq<Msg>, lvl: nat -> nat): Loading
    decreases |ms|
  {
    if ms == [] then st else TakeAll(Take(st, ms[0], lvl), ms[1..], lvl)
  }

  function TakeRead(c: Codec, st: Loading, kind: byte, p: Option<Bytes>, lvl: nat -> nat): Loading {
    if p == None || c.parse(kind, p.value) == None then st else Take(st, c.parse(kind, p.value).value, lvl)
  }

  /** Reading a file to its end, or to a record of unknown kind. A record that cannot be read is passed over. */
  function LoadFrom(c: Codec, st: Loading, s: Bytes, lvl: nat -> nat): (Loading, int)
    decreases |s|
  {
    if s == [] then (st, 0)
    else if s[0] > 3 then (st, -1)
    else
      var (p, rest) := DecodeRaw(s[1..]);
      LoadFrom(c, TakeRead(c, st, s[0], p, lvl), rest, lvl)
  }

  lemma LoadsOne(c: Codec, st: Loading, s: Bytes, lvl: nat -> nat)
    requires s != [] && s[0] <= 3
    ensures var (p, rest) := DecodeRaw(s[1..]);
      LoadFrom(c, st, s, lvl) == LoadFrom(c, TakeRead(c, st, s[0], p, lvl), rest, lvl)
  {
  }

  /** A record whose payload cannot be parsed is passed over: loading goes on behind it as if it were not there. */
  lemma UnreadablePassed(c: Codec, st: Loading, r: Record, more: Bytes, lvl: nat -> nat)
    requires r.kind <= 3 && 0 < |r.payload| < LEN_ERR && c.parse(r.kind, r.payload) == None
    ensures LoadFrom(c, st, EncodeRecord(r) + more, lvl) == LoadFrom(c, st, more, lvl)
  {
    var s := EncodeRecord(r) + more;
    assert s[0] == r.kind && s[1..] == EncodeRaw(r.payload) + more;
    RawRoundTrip(r.payload, more);
    LoadsOne(c, st, s, lvl);
  }

  /** A truncated record at the end of the file is passed over, too. */
  lemma TruncatedPassed(c: Codec, st: Loading, s: Bytes, lvl: nat -> nat)
    requires s != [] && s[0] <= 3 && DecodeRaw(s[1..]) == (None, [])
    ensures LoadFrom(c, st, s, lvl) == (st, 0)
  {
    LoadsOne(c, st, s, lvl);
  }

  /** Everything in the tables is still there. */
  predicate StillThere(ts: Tables, ts': Tables) {
    && ts.Keys <= ts'.Keys
    && forall k, i {:trigger ts[k][i]} :: k in ts && 0 <= i < |ts[k]| ==> ts[k][i] in ts'[k]
  }

  lemma AddedKeeps(es: seq<Entry>, x: Entry, e: Entry)
    requires e in es
    ensures e in Added(es, x)
  {
    if !HasMember(es, x.val) {
      var p := Place(es, x.score);
      var i :| 0 <= i < |es| && es[i] == e;
      assert WithEntry(es, x)[if i < p then i else i + 1] == e;
    }
  }

  lemma {:induction false} FilledKeeps(es: seq<Entry>, draws: nat, m: Msg, i: nat, lvl: nat -> nat, e: Entry)
    requires m.Keys? && e in es
    ensures e in Filled(es, draws, m, i, lvl).0
    decreases |m.key| - i
  {
    if i < |m.key| && i < |m.val| {
      if HasMember(es, m.val[i]) {
        FilledKeeps(es, draws, m, i + 1, lvl, e);
      } else {
        var x := Entry(m.key[i], m.val[i], lvl(draws));
        AddedKeeps(es, x, e);
        FilledKeeps(Added(es, x), draws + 1, m, i + 1, lvl, e);
      }
    }
  }

  lemma TakeKeeps(st: Loading, m: Msg, lvl: nat -> nat)
    ensures StillThere(st.ts, Take(st, m, lvl).ts)
  {
    if m.Keys? && st.cur.Some? && st.cur.value in st.ts {
      forall i | 0 <= i < |st.ts[st.cur.value]|
        ensures st.ts[st.cur.value][i] in Filled(st.ts[st.cur.value], st.draws, m, 0, lvl).0
      {
        FilledKeeps(st.ts[st.cur.value], st.draws, m, 0, lvl, st.ts[st.cur.value][i]);
      }
    }
  }

  /** Loading takes nothing away: whatever the file holds, damaged or not, every table and every entry that was there
      before is there afterwards. */
  lemma {:induction false} LoadKeeps(c: Codec, st: Loading, s: Bytes, lvl: nat -> nat)
    ensures StillThere(st.ts, LoadFrom(c, st, s, lvl).0.ts)
    decreases |s|
  {
    if s != [] && s[0] <= 3 {
      var (p, rest) := DecodeRaw(s[1..]);
      var st1 := TakeRead(c, st, s[0], p, lvl);
      if p != None && c.parse(s[0], p.value) != None {
        TakeKeeps(st, c.parse(s[0], p.value).value, lvl);
      }
      LoadKeeps(c, st1, rest, lvl);
      var ts' := LoadFrom(c, st1, rest, lvl).0.ts;
      forall k, i | k in st.ts && 0 <= i < |st.ts[k]| ensures st.ts[k][i] in ts'[k] {
        assert st.ts[k][i] in st1.ts[k];
        var j :| 0 <= j < |st1.ts[k]| && st1.ts[k][j] == st.ts[k][i];
      }
    }
  }

  lemma {:induction false} TakeAppend(st: Loading, a: seq<Msg>, b: seq<Msg>, lvl: nat -> nat)
    ensures TakeAll(st, a + b, lvl) == TakeAll(TakeAll(st, a, lvl), b, lvl)
    decreases |a|
  {
    if a == [] {
      assert a + b == b;
    } else {
      assert (a + b)[1..] == a[1..] + b && (a + b)[0] == a[0];
      TakeAppend(Take(st, a[0], lvl), a[1..], b, lvl);
    }
  }

  /** Loading a file of messages whose payloads can be stored takes those messages. */
  lemma {:induction false} LoadTakes(c: Codec, st: Loading, ms: seq<Msg>, lvl: nat -> nat)
    requires CodesAll(c, ms) && forall i {:trigger ms[i]} :: 0 <= i < |ms| ==> Storable(RecordOf(c, ms[i]))
    ensures LoadFrom(c, st, FileOf(c, ms), lvl) == (TakeAll(st, ms, lvl), 0)
    decreases |ms|
  {
    if ms != [] {
      var r, rest := RecordOf(c, ms[0]), FileOf(c, ms[1..]);
      assert Storable(r);
      RecordRoundTrip(r, rest);
      var s := FileOf(c, ms);
      assert s == EncodeRecord(r) + rest;
      assert Codes(c, ms[0]);
      LoadTakes(c, Take(st, ms[0], lvl), ms[1..], lvl);
    }
  }

  // ----- the round trip

  /** Scores do not fall along the sequence. */
  predicate ByScore(es: seq<Entry>) {
    forall i, j {:trigger es[i], es[j]} :: 0 <= i < j < |es| ==> es[i].score <= es[j].score
  }

  /** No member stands twice. */
  predicate Once(es: seq<Entry>) {
    forall i, j {:trigger es[i], es[j]} :: 0 <= i < j < |es| ==> es[i].val != es[j].val
  }

  /** One of the first n entries is of this member. */
  predicate Among(es: seq<Entry>, n: nat, val: string)
    requires n <= |es|
  {
    exists j {:trigger es[j]} :: 0 <= j < n && es[j].val == val
  }

  /** Of the first n entries, the first one of each member. */
  function Firsts(es: seq<Entry>, n: nat): (fs: seq<Entry>)
    requires n <= |es|
    ensures |fs| <= n
  {
    if n == 0 then []
    else if Among(es, n - 1, es[n - 1].val) then Firsts(es, n - 1)
    else Firsts(es, n - 1) + [es[n - 1]]
  }

  function FirstOnes(es: seq<Entry>): seq<Entry> {
    Firsts(es, |es|)
  }

  /** The same sequence of scores and members, whatever the levels. */
  predicate SamePairs(a: seq<Entry>, b: seq<Entry>) {
    |a| == |b| && forall i {:trigger a[i]} {:trigger b[i]} :: 0 <= i < |a| ==>
      a[i].score == b[i].score && a[i].val == b[i].val
  }

  lemma {:induction false} FirstsAmong(es: seq<Entry>, n: nat, val: string)
    requires n <= |es|
    ensures HasMember(Firsts(es, n), val) <==> Among(es, n, val)
  {
    if n > 0 {
      FirstsAmong(es, n - 1, val);
      var fs, fs' := Firsts(es, n - 1), Firsts(es, n);
      assert Among(es, n, val) <==> Among(es, n - 1, val) || es[n - 1].val == val;
      if !Among(es, n - 1, es[n - 1].val) {
        assert fs' == fs + [es[n - 1]] && fs'[|fs|] == es[n - 1];
        if i :| 0 <= i < |fs| && fs[i].val == val {
          assert fs'[i] == fs[i];
        }
      }
    }
  }

  lemma {:induction false} FirstsBelow(es: seq<Entry>, n: nat, score: real)
    requires n <= |es| && forall i {:trigger es[i]} :: 0 <= i < n ==> es[i].score <= score
    ensures forall i {:trigger Firsts(es, n)[i]} :: 0 <= i < |Firsts(es, n)| ==> Firsts(es, n)[i].score <= score
  {
    if n > 0 {
      FirstsBelow(es, n - 1, score);
    }
  }

  lemma {:induction false} FirstsAll(es: seq<Entry>, n: nat)
    requires n <= |es| && Once(es)
    ensures Firsts(es, n) == es[..n]
  {
    if n > 0 {
      FirstsAll(es, n - 1);
      assert !Among(es, n - 1, es[n - 1].val);
      assert es[..n] == es[..n - 1] + [es[n - 1]];
    }
  }

  lemma {:induction false} FirstsFewer(es: seq<Entry>, n: nat, j: nat)
    requires j < n <= |es| && Among(es, j, es[j].val)
    ensures |Firsts(es, n)| < n
  {
    if j < n - 1 {
      FirstsFewer(es, n - 1, j);
    }
  }

  /** A sequence with the pairs of the first entries has all pairs exactly when no member stands twice. */
  lemma FirstOnesTell(fs: seq<Entry>, es: seq<Entry>)
    requires SamePairs(fs, FirstOnes(es))
    ensures SamePairs(fs, es) <==> Once(es)
  {
    if Once(es) {
      FirstsAll(es, |es|);
      assert es[..|es|] == es;
    } else {
      var i, j :| 0 <= i < j < |es| && es[i].val == es[j].val;
      assert Among(es, j, es[j].val);
      FirstsFewer(es, |es|, j);
    }
  }

  lemma SamePairsHave(a: seq<Entry>, b: seq<Entry>, val: string)
    requires SamePairs(a, b)
    ensures HasMember(a, val) <==> HasMember(b, val)
  {
    if i :| 0 <= i < |a| && a[i].val == val {
      assert b[i].val == val;
    }
    if i :| 0 <= i < |b| && b[i].val == val {
      assert a[i].val == val;
    }
  }

  /** The next entry of a sequence ordered by score goes to the end, unless its member has been there. */
  lemma AddedAtEnd(cur: seq<Entry>, es: seq<Entry>, a: nat, l: nat)
    requires ByScore(es) && a < |es| && SamePairs(cur, Firsts(es, a))
    ensures SamePairs(Added(cur, Entry(es[a].score, es[a].val, l)), Firsts(es, a + 1))
  {
    SamePairsHave(cur, Firsts(es, a), es[a].val);
    FirstsAmong(es, a, es[a].val);
    FirstsBelow(es, a, es[a].score);
    PlaceIs(cur, es[a].score, |cur|);
    assert cur[..|cur|] == cur && cur[|cur|..] == [];
  }

  lemma FilledOne(cur: seq<Entry>, draws: nat, m: Msg, i: nat, lvl: nat -> nat)
    requires m.Keys? && i < |m.key| && i < |m.val|
    ensures var draws' := if HasMember(cur, m.val[i]) then draws else draws + 1;
      Filled(cur, draws, m, i, lvl) == Filled(Added(cur, Entry(m.key[i], m.val[i], lvl(draws))), draws', m, i + 1, lvl)
  {
  }

  lemma KeysAt(es: seq<Entry>, a: nat, b: nat, i: nat)
    requires a + i < b <= |es|
    ensures var m := KeysOf(es[a..b]);
      i < |m.key| == |m.val| && m.key[i] == es[a + i].score && m.val[i] == es[a + i].val
  {
  }

  lemma {:induction false} FilledAppends(cur: seq<Entry>, draws: nat, es: seq<Entry>, a: nat, b: nat, i: nat,
                                         lvl: nat -> nat)
    requires ByScore(es) && a + i <= b <= |es| && SamePairs(cur, Firsts(es, a + i))
    ensures SamePairs(Filled(cur, draws, KeysOf(es[a..b]), i, lvl).0, Firsts(es, b))
    decreases b - a - i
  {
    var m := KeysOf(es[a..b]);
    if a + i < b {
      KeysAt(es, a, b, i);
      AddedAtEnd(cur, es, a + i, lvl(draws));
      FilledOne(cur, draws, m, i, lvl);
      var draws' := if HasMember(cur, m.val[i]) then draws else draws + 1;
      FilledAppends(Added(cur, Entry(m.key[i], m.val[i], lvl(draws))), draws', es, a, b, i + 1, lvl);
    } else {
      assert |m.key| == i;
    }
  }

  /** The table being filled becomes fs, and nothing else changes. */
  predicate Fills(st: Loading, st': Loading, key: string, fs: seq<Entry>) {
    && st'.cur == st.cur == Some(key) && key in st'.ts && SamePairs(st'.ts[key], fs)
    && st'.ts == st.ts[key := st'.ts[key]]
  }

  lemma OneBatch(st: Loading, key: string, es: seq<Entry>, a: nat, b: nat, lvl: nat -> nat)
    requires ByScore(es) && a <= b <= |es| && st.cur == Some(key)
    requires key in st.ts && SamePairs(st.ts[key], Firsts(es, a))
    ensures Fills(st, Take(st, KeysOf(es[a..b]), lvl), key, Firsts(es, b))
  {
    FilledAppends(st.ts[key], st.draws, es, a, b, 0, lvl);
  }

  /** Where the batch that starts at a ends. */
  function NextEnd(es: seq<Entry>, a: nat): (b: nat)
    requires a <= |es|
    ensures a <= b <= |es| && (a < |es| ==> a < b)
  {
    if |es| - a <= BATCH then |es| else a + BATCH
  }

  lemma BatchesFrom(es: seq<Entry>, a: nat)
    requires a < |es|
    ensures var b := NextEnd(es, a); Batches(es[a..]) == [KeysOf(es[a..b])] + Batches(es[b..])
  {
    var b, rest := NextEnd(es, a), es[a..];
    if b < |es| {
      assert rest[..BATCH] == es[a..b] && rest[BATCH..] == es[b..];
    } else {
      assert rest == es[a..b] && es[b..] == [];
    }
  }

  lemma {:induction false} BatchesFill(st: Loading, key: string, es: seq<Entry>, a: nat, lvl: nat -> nat)
    requires ByScore(es) && a <= |es| && st.cur == Some(key) && key in st.ts && SamePairs(st.ts[key], Firsts(es, a))
    ensures Fills(st, TakeAll(st, Batches(es[a..]), lvl), key, FirstOnes(es))
    decreases |es| - a
  {
    if a < |es| {
      var b, ms := NextEnd(es, a), Batches(es[a..]);
      BatchesFrom(es, a);
      OneBatch(st, key, es, a, b, lvl);
      assert ms[0] == KeysOf(es[a..b]) && ms[1..] == Batches(es[b..]);
      BatchesFill(Take(st, ms[0], lvl), key, es, b, lvl);
    }
  }

  lemma TableTaken(c: Codec, st: Loading, key: string, size: nat, es: seq<Entry>, lvl: nat -> nat)
    requires ByScore(es) && key !in st.ts && c.ser(TableHead(key, size)) != []
    ensures var st' := TakeAll(st, TableMsgs(c, key, size, es), lvl);
      key in st'.ts && SamePairs(st'.ts[key], FirstOnes(es)) && st'.ts == st.ts[key := st'.ts[key]]
  {
    var ms := TableMsgs(c, key, size, es);
    assert ms[0] == TableHead(key, size) && ms[1..] == Batches(es[0..]);
    BatchesFill(Take(st, ms[0], lvl), key, es, 0, lvl);
  }

  ghost predicate SameTables(ts: Tables, ts': Tables, keys: seq<string>) {
    && (forall k {:trigger k in ts'} :: k in ts' <==> k in keys)
    && (forall k {:trigger k in keys} :: k in keys ==> k in ts && k in ts' && SamePairs(ts'[k], FirstOnes(ts[k])))
  }

  predicate DistinctKeys(order: seq<string>) {
    forall i, j {:trigger order[i], order[j]} :: 0 <= i < j < |order| ==> order[i] != order[j]
  }

  /** What saving a table asks: a sequence ordered by score, and a head that is not all defaults. */
  predicate Savable(ts: Tables, sizes: Sizes, key: string) {
    key in ts && ByScore(ts[key]) && !Default(TableHead(key, SizeOf(sizes, key)))
  }

  lemma TailCodes(c: Codec, a: seq<Msg>, b: seq<Msg>)
    requires CodesAll(c, a + b)
    ensures CodesAll(c, b)
  {
    forall i | 0 <= i < |b| ensures Codes(c, b[i]) {
      assert b[i] == (a + b)[|a| + i];
    }
  }

  lemma LastTableCodes(c: Codec, a: seq<Msg>, b: seq<Msg>)
    requires CodesAll(c, a + b) && b != []
    ensures CodesAll(c, a) && Codes(c, b[0])
  {
    forall i | 0 <= i < |a| ensures Codes(c, a[i]) {
      assert a[i] == (a + b)[i];
    }
    assert b[0] == (a + b)[|a|];
  }

  lemma OneMoreKey(ts: Tables, ts0: Tables, ts1: Tables, order: seq<string>, n: nat)
    requires n + 1 == |order| && DistinctKeys(order) && SameTables(ts, ts0, order[..n]) && order[n] in ts
    requires order[n] in ts1 && SamePairs(ts1[order[n]], FirstOnes(ts[order[n]]))
    requires ts1 == ts0[order[n] := ts1[order[n]]]
    ensures SameTables(ts, ts1, order)
  {
    var some, key := order[..n], order[n];
    assert order == some + [key] && key !in some;
    forall k | k in order ensures k in ts && k in ts1 && SamePairs(ts1[k], FirstOnes(ts[k])) {
      assert k in some || k == key;
    }
  }

  lemma {:induction false} TablesTaken(c: Codec, st: Loading, ts: Tables, sizes: Sizes, order: seq<string>,
                                       lvl: nat -> nat)
    requires DistinctKeys(order) && st.ts == map[]
    requires forall i {:trigger order[i]} :: 0 <= i < |order| ==> order[i] in ts && Savable(ts, sizes, order[i])
    requires CodesAll(c, AllTableMsgs(c, ts, sizes, order))
    ensures SameTables(ts, TakeAll(st, AllTableMsgs(c, ts, sizes, order), lvl).ts, order)
  {
    if order != [] {
      var n := |order| - 1;
      var key, ms := order[n], AllTableMsgs(c, ts, sizes, order[..n]);
      LastTableCodes(c, ms, TableMsgs(c, key, SizeOf(sizes, key), ts[key]));
      TablesTaken(c, st, ts, sizes, order[..n], lvl);
      var st1 := TakeAll(st, ms, lvl);
      assert key !in order[..n] && Savable(ts, sizes, key);
      var more := TableMsgs(c, key, SizeOf(sizes, key), ts[key]);
      TableTaken(c, st1, key, SizeOf(sizes, key), ts[key], lvl);
      TakeAppend(st, ms, more, lvl);
      OneMoreKey(ts, st1.ts, TakeAll(st1, more, lvl).ts, order, n);
    }
  }

  function HeadMsgs(time: string): seq<Msg> {
    [Version("BIS_V1", "CaiZhiLi", time), DbNum(1)]
  }

  /** The messages of a whole file. */
  function DbMsgs(c: Codec, ts: Tables, sizes: Sizes, order: seq<string>, time: string): seq<Msg>
    requires forall i {:trigger order[i]} :: 0 <= i < |order| ==> order[i] in ts
  {
    HeadMsgs(time) + AllTableMsgs(c, ts, sizes, order)
  }

  predicate NoDefaults(ms: seq<Msg>) {
    forall i {:trigger ms[i]} :: 0 <= i < |ms| ==> !Default(ms[i])
  }

  lemma NoDefaultsAppend(a: seq<Msg>, b: seq<Msg>)
    requires NoDefaults(a) && NoDefaults(b)
    ensures NoDefaults(a + b)
  {
  }

  lemma {:induction false} BatchesNotDefault(es: seq<Entry>)
    ensures NoDefaults(Batches(es))
  {
    if |es| > BATCH {
      BatchesNotDefault(es[BATCH..]);
    }
  }

  lemma TableNotDefault(c: Codec, ts: Tables, sizes: Sizes, key: string)
    requires Savable(ts, sizes, key)
    ensures NoDefaults(TableMsgs(c, key, SizeOf(sizes, key), ts[key]))
  {
    BatchesNotDefault(ts[key]);
  }

  lemma {:induction false} MsgsNotDefault(c: Codec, ts: Tables, sizes: Sizes, order: seq<string>)
    requires forall i {:trigger order[i]} :: 0 <= i < |order| ==> order[i] in ts && Savable(ts, sizes, order[i])
    ensures NoDefaults(AllTableMsgs(c, ts, sizes, order))
  {
    if order != [] {
      var n := |order| - 1;
      MsgsNotDefault(c, ts, sizes, order[..n]);
      TableNotDefault(c, ts, sizes, order[n]);
      NoDefaultsAppend(AllTableMsgs(c, ts, sizes, order[..n]),
        TableMsgs(c, order[n], SizeOf(sizes, order[n]), ts[order[n]]));
    }
  }

  lemma HeadTaken(st: Loading, time: string, lvl: nat -> nat)
    ensures TakeAll(st, [Version("BIS_V1", "CaiZhiLi", time), DbNum(1)], lvl) == st
  {
    var head := [Version("BIS_V1", "CaiZhiLi", time), DbNum(1)];
    assert head[1..] == [DbNum(1)];
    assert TakeAll(st, [DbNum(1)], lvl) == TakeAll(Take(st, DbNum(1), lvl), [], lvl);
  }

  lemma AllStorable(c: Codec, ts: Tables, sizes: Sizes, order: seq<string>, time: string)
    requires forall i {:trigger order[i]} :: 0 <= i < |order| ==> order[i] in ts && Savable(ts, sizes, order[i])
    requires CodesAll(c, DbMsgs(c, ts, sizes, order, time))
    requires forall m {:trigger c.ser(m)} :: m in DbMsgs(c, ts, sizes, order, time) ==> |c.ser(m)| < LEN_ERR
    ensures var ms := DbMsgs(c, ts, sizes, order, time);
      forall i {:trigger ms[i]} :: 0 <= i < |ms| ==> Storable(RecordOf(c, ms[i]))
  {
    var ms := DbMsgs(c, ts, sizes, order, time);
    MsgsNotDefault(c, ts, sizes, order);
    forall i | 0 <= i < |ms| ensures Storable(RecordOf(c, ms[i])) {
      assert ms[i] in ms;
      assert i >= 2 ==> ms[i] == AllTableMsgs(c, ts, sizes, order)[i - 2];
      assert Codes(c, ms[i]) && !Default(ms[i]);
    }
  }

  /** Saving a database and loading the file into an empty one gives the same tables, each with the first entry of every
      member in the same sequence, in whatever order the tables are written and whatever levels are drawn. So a table is
      rebuilt exactly when no member stands twice in it. */
  lemma SaveThenLoad(c: Codec, ts: Tables, sizes: Sizes, order: seq<string>, time: string, lvl: nat -> nat)
    requires DistinctKeys(order) && (forall k {:trigger k in ts} :: k in ts <==> k in order)
    requires forall i {:trigger order[i]} :: 0 <= i < |order| ==> order[i] in ts && Savable(ts, sizes, order[i])
    requires CodesAll(c, DbMsgs(c, ts, sizes, order, time))
    requires forall m {:trigger c.ser(m)} :: m in DbMsgs(c, ts, sizes, order, time) ==> |c.ser(m)| < LEN_ERR
    ensures var (st, ret) := LoadFrom(c, Loading(map[], None, 0), FileOf(c, DbMsgs(c, ts, sizes, order, time)), lvl);
      && ret == 0 && st.ts.Keys == ts.Keys
      && (forall k {:trigger ts[k]} :: k in ts ==> SamePairs(st.ts[k], FirstOnes(ts[k])))
      && (forall k {:trigger ts[k]} :: k in ts ==> (SamePairs(st.ts[k], ts[k]) <==> Once(ts[k])))
  {
    var ms := DbMsgs(c, ts, sizes, order, time);
    AllStorable(c, ts, sizes, order, time);
    var st0 := Loading(map[], None, 0);
    LoadTakes(c, st0, ms, lvl);
    HeadTaken(st0, time, lvl);
    TakeAppend(st0, [Version("BIS_V1", "CaiZhiLi", time), DbNum(1)], AllTableMsgs(c, ts, sizes, order), lvl);
    TailCodes(c, [Version("BIS_V1", "CaiZhiLi", time), DbNum(1)], AllTableMsgs(c, ts, sizes, order));
    TablesTaken(c, st0, ts, sizes, order, lvl);
    var st := LoadFrom(c, st0, FileOf(c, ms), lvl).0;
    forall k | k in ts ensures SamePairs(st.ts[k], FirstOnes(ts[k])) && (SamePairs(st.ts[k], ts[k]) <==> Once(ts[k])) {
      assert k in order;
      FirstOnesTell(st.ts[k], ts[k]);
    }
  }

  /** A table whose head is all defaults breaks the file: a lone type byte takes the next record's type for a length. */
  lemma DefaultHeadBreaks(c: Codec, rest: Bytes)
    requires Codes(c, TableHead("", 0))
    ensures EncodeRecord(RecordOf(c, TableHead("", 0))) == [2]
    ensures DecodeRaw(([2] + rest)[1..]) != (Some(c.ser(TableHead("", 0))), rest)
  {
    RecordRoundTrip(RecordOf(c, TableHead("", 0)), rest);
  }

  /** A list that agrees with a dictionary has no member twice. */
  lemma SyncedOnce(dict: map<string, real>, es: seq<Entry>)
    requires Synced(dict, es)
    ensures Once(es)
  {
  }
}
