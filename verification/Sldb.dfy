/** The bytes of the database file: a prefix code for lengths, and a stream of typed records. */
module Records {
  type byte = x: int | 0 <= x < 256
  type Bytes = seq<byte>

  const LEN_ERR: nat := 0xFFFF_FFFF
  const WORD: nat := 0x1_0000_0000

  const BS_6BIT: nat := 0
  const BS_14BIT: nat := 1
  const BS_32BIT: nat := 2

  datatype Option<T> = None | Some(value: T)

  /** A number in k bytes, the high ones first. */
  function Net(n: nat, k: nat): (s: Bytes)
    ensures |s| == k
  {
    if k == 0 then [] else Net(n / 256, k - 1) + [n % 256]
  }

  function Pow256(k: nat): nat {
    if k == 0 then 1 else 256 * Pow256(k - 1)
  }

  /** The number that bytes in this order stand for. */
  function Num(s: Bytes): (n: nat)
    ensures n < Pow256(|s|)
  {
    if s == [] then 0 else Num(s[..|s| - 1]) * 256 + s[|s| - 1] as int
  }

  lemma {:induction false} NumNet(n: nat, k: nat)
    requires n < Pow256(k)
    ensures Num(Net(n, k)) == n
  {
    if k > 0 {
      NumNet(n / 256, k - 1);
      assert Net(n, k)[..k - 1] == Net(n / 256, k - 1);
    }
  }

  lemma {:induction false} NetNum(s: Bytes)
    ensures Net(Num(s), |s|) == s
  {
    if s != [] {
      NetNum(s[..|s| - 1]);
    }
  }

  lemma Sizes()
    ensures Pow256(2) == 65536 && Pow256(4) == WORD
  {
    assert Pow256(1) == 256 && Pow256(2) == 65536 && Pow256(3) == 0x100_0000;
  }

  /** The number that two bytes make, and that four do. */
  function Two(s: Bytes, i: nat): nat
    requires i + 2 <= |s|
  {
    s[i] as int * 256 + s[i + 1] as int
  }

  function Four(s: Bytes, i: nat): nat
    requires i + 4 <= |s|
  {
    s[i] as int * 0x100_0000 + s[i + 1] as int * 0x1_0000 + s[i + 2] as int * 256 + s[i + 3] as int
  }

  /** Numbers are in network order. */
  lemma NetworkOrder(s: Bytes, i: nat)
    ensures i + 2 <= |s| ==> Num(s[i..i + 2]) == Two(s, i)
    ensures i + 4 <= |s| ==> Num(s[i..i + 4]) == Four(s, i)
  {
    if i + 2 <= |s| {
      var t := s[i..i + 2];
      assert Num(t[..1]) == t[0] as int && t[..1][..0] == [];
    }
    if i + 4 <= |s| {
      var t := s[i..i + 4];
      assert t[..3][..2] == t[..2] && t[..2][..1] == t[..1] && t[..1][..0] == [];
      assert Num(t[..1]) == t[0] as int;
      assert Num(t[..2]) == Num(t[..1]) * 256 + t[1] as int;
      assert Num(t[..3]) == Num(t[..2]) * 256 + t[2] as int;
    }
  }

  /** A length in one, two or five bytes, the form in the two highest bits of the first. */
  function EncodeLen(n: nat): Bytes
    requires n < WORD
  {
    if n < 64 then [BS_6BIT * 64 + n]
    else if n < 16384 then [BS_14BIT * 64 + n / 256, n % 256]
    else [BS_32BIT * 64] + Net(n, 4)
  }

  function Num32(s: Bytes): (n: nat)
    requires |s| == 4
    ensures n < WORD
  {
    Sizes();
    Num(s)
  }

  /** The length read and the bytes after it; LEN_ERR when the file ends too early or the form is unknown. */
  function DecodeLen(s: Bytes): (r: (nat, Bytes))
    ensures r.0 < WORD && |r.1| <= |s|
  {
    if s == [] then (LEN_ERR, [])
    else
      var form, low := s[0] / 64, s[0] % 64;
      if form == BS_6BIT then (low, s[1..])
      else if form == BS_14BIT then if |s| < 2 then (LEN_ERR, []) else (low as int * 256 + s[1] as int, s[2..])
      else if form == BS_32BIT then
        if |s| < 5 then (LEN_ERR, []) else (Num32(s[1..5]), s[5..])
      else (LEN_ERR, s[1..])
  }

  lemma LenRoundTrip(n: nat, rest: Bytes)
    requires n < WORD
    ensures DecodeLen(EncodeLen(n) + rest) == (n, rest)
  {
    var s := EncodeLen(n) + rest;
    assert s[|EncodeLen(n)|..] == rest;
    if n >= 16384 {
      Sizes();
      NumNet(n, 4);
      assert s[1..5] == Net(n, 4);
    }
  }

  /** The forms of a length, byte by byte: the shortest that holds it, told apart by the two highest bits of the first
      byte; what follows is in network order. */
  lemma LenForms(n: nat)
    requires n < WORD
    ensures var s := EncodeLen(n);
      && |s| == (if n < 0x40 then 1 else if n < 0x4000 then 2 else 5)
      && (|s| == 1 ==> s[0] == n)
      && (|s| == 2 ==> Two(s, 0) == 0x4000 + n)
      && (|s| == 5 ==> s[0] == 0x80 && Four(s, 1) == n)
  {
    if n >= 16384 {
      Sizes();
      NumNet(n, 4);
      assert EncodeLen(n)[1..5] == Net(n, 4);
      NetworkOrder(EncodeLen(n), 1);
    }
  }

  /** A string behind its length; an empty string is not written at all. The length is cut to 32 bits. */
  function EncodeRaw(p: Bytes): Bytes {
    if p == [] then [] else EncodeLen(|p| % WORD) + p
  }

  /** The string read and the bytes after it. A length of 0 fails, as does reaching the end of the file. */
  function DecodeRaw(s: Bytes): (r: (Option<Bytes>, Bytes))
    ensures |r.1| <= |s|
    ensures r.0.Some? ==> 0 < |r.0.value| < LEN_ERR
  {
    var (len, rest) := DecodeLen(s);
    if len == LEN_ERR || len == 0 then (None, rest)
    else if |rest| < len then (None, [])
    else (Some(rest[..len]), rest[len..])
  }

  lemma Associate<T>(a: seq<T>, b: seq<T>, c: seq<T>)
    ensures a + b + c == a + (b + c)
  {
  }

  /** Exactly the strings of 1 to 2^32 - 2 bytes survive. */
  lemma RawRoundTrip(p: Bytes, rest: Bytes)
    ensures DecodeRaw(EncodeRaw(p) + rest) == (Some(p), rest) <==> 0 < |p| < LEN_ERR
  {
    if 0 < |p| < LEN_ERR {
      LenRoundTrip(|p|, p + rest);
      assert EncodeRaw(p) + rest == EncodeLen(|p|) + (p + rest);
      assert (p + rest)[..|p|] == p && (p + rest)[|p|..] == rest;
    }
  }

  datatype Record = Record(kind: byte, payload: Bytes)

  function EncodeRecord(r: Record): Bytes {
    [r.kind] + EncodeRaw(r.payload)
  }

  function EncodeAll(rs: seq<Record>): Bytes {
    if rs == [] then [] else EncodeRecord(rs[0]) + EncodeAll(rs[1..])
  }

  /** All records of a file, or none when some record is damaged. */
  function DecodeAll(s: Bytes): Option<seq<Record>>
    decreases |s|
  {
    if s == [] then Some([])
    else
      var (p, rest) := DecodeRaw(s[1..]);
      if p == None then None
      else
        var rs := DecodeAll(rest);
        if rs == None then None else Some([Record(s[0], p.value)] + rs.value)
  }

  predicate Storable(r: Record) {
    0 < |r.payload| < LEN_ERR
  }

  lemma RecordRoundTrip(r: Record, rest: Bytes)
    ensures var s := EncodeRecord(r) + rest;
      s[0] == r.kind && (DecodeRaw(s[1..]) == (Some(r.payload), rest) <==> Storable(r))
  {
    var s := EncodeRecord(r) + rest;
    assert s[1..] == EncodeRaw(r.payload) + rest;
    RawRoundTrip(r.payload, rest);
  }

  /** Any list of records with payloads of 1 to 2^32 - 2 bytes is read back as it was written. */
  lemma {:induction false} RecordsRoundTrip(rs: seq<Record>)
    requires forall i {:trigger rs[i]} :: 0 <= i < |rs| ==> Storable(rs[i])
    ensures DecodeAll(EncodeAll(rs)) == Some(rs)
  {
    if rs != [] {
      RecordRoundTrip(rs[0], EncodeAll(rs[1..]));
      RecordsRoundTrip(rs[1..]);
      assert [rs[0]] + rs[1..] == rs;
    }
  }

  lemma {:induction false} EncodeAllAppend(a: seq<Record>, b: seq<Record>)
    ensures EncodeAll(a + b) == EncodeAll(a) + EncodeAll(b)
  {
    if a == [] {
      assert a + b == b;
    } else {
      assert (a + b)[1..] == a[1..] + b && (a + b)[0] == a[0];
      EncodeAllAppend(a[1..], b);
    }
  }
}

/** The file, written and read at a position. */
module Sldb {
  import opened Records

  /** When bytes come to those that stdio holds back, how many of all of them it passes on to the device. */
  type Spill = (Bytes, Bytes) -> nat

  /** A file being written: what the device has and how much more it takes, what stdio holds back, how many writes have
      failed, and when stdio passes on what it holds. */
  datatype Stream = Stream(data: Bytes, room: nat, held: Bytes, faults: nat, spill: Spill)

  /** Some bytes are passed on, and others held back from now on. When the device has no room for all of them it takes
      the first, the write fails, and stdio drops what it holds. */
  function Passed(st: Stream, bytes: Bytes, rest: Bytes): Stream {
    if |bytes| <= st.room then st.(data := st.data + bytes, room := st.room - |bytes|, held := rest)
    else st.(data := st.data + bytes[..st.room], room := 0, held := [], faults := st.faults + 1)
  }

  /** How many of all these bytes are passed on. */
  function Spilled(st: Stream, buf: Bytes): (k: nat)
    ensures k <= |st.held + buf|
  {
    var k := st.spill(st.held, buf);
    if k <= |st.held + buf| then k else |st.held + buf|
  }

  /** The effect of fwrite. */
  function Put(st: Stream, buf: Bytes): Stream {
    var all, k := st.held + buf, Spilled(st, buf);
    Passed(st, all[..k], all[k..])
  }

  /** The effect of fflush. */
  function Flushed(st: Stream): Stream {
    Passed(st, st.held, [])
  }

  predicate Failed(st: Stream, st': Stream) {
    st'.faults > st.faults
  }

  /** Writing a length: in its long form, the digits only after the form has been accepted. */
  function PutLen(st: Stream, len: nat): Stream
    requires len < WORD
  {
    if len < 16384 then Put(st, EncodeLen(len))
    else
      var st1 := Put(st, [BS_32BIT * 64]);
      if Failed(st, st1) then st1 else Put(st1, Net(len, 4))
  }

  /** Writing a string: the bytes only after the length has been accepted. */
  function PutRaw(st: Stream, str: Bytes): Stream {
    if str == [] then st
    else
      var st1 := PutLen(st, |str| % WORD);
      if Failed(st, st1) then st1 else Put(st1, str)
  }

  /** Writing a record: the payload only after the type has been accepted. */
  function PutRecord(st: Stream, r: Record): Stream {
    var st1 := Put(st, [r.kind]);
    if Failed(st, st1) then st1 else PutRaw(st1, r.payload)
  }

  /** What has become of the bytes that were to be written to a device of this size. As long as no write has failed,
      they are on the device or held back; afterwards the device is full of the first of them. */
  predicate Streams(st: Stream, bytes: Bytes, cap: nat) {
    && |st.data| + st.room == cap
    && if st.faults == 0 then st.data + st.held == bytes else st.room == 0 && |bytes| > cap && st.data == bytes[..cap]
  }

  lemma PassedStreams(st: Stream, bytes: Bytes, all: Bytes, k: nat, cap: nat)
    requires k <= |all| && |st.data| + st.room == cap && st.faults == 0 && st.data + all == bytes
    ensures Streams(Passed(st, all[..k], all[k..]), bytes, cap)
  {
    assert all[..k] + all[k..] == all;
    if k <= st.room {
      Associate(st.data, all[..k], all[k..]);
    } else {
      assert all[..k][..st.room] == all[..st.room];
      assert bytes[..cap] == st.data + all[..st.room];
    }
  }

  /** On a full device bytes more or less make no difference. */
  lemma LostStreams(st: Stream, bytes: Bytes, more: Bytes, cap: nat)
    requires Streams(st, bytes, cap) && st.faults > 0
    ensures Streams(st, bytes + more, cap)
  {
    assert (bytes + more)[..cap] == bytes[..cap];
  }

  lemma PutStreams(st: Stream, buf: Bytes, bytes: Bytes, cap: nat)
    requires Streams(st, bytes, cap)
    ensures Streams(Put(st, buf), bytes + buf, cap) && Put(st, buf).faults >= st.faults
  {
    var all, k := st.held + buf, Spilled(st, buf);
    if st.faults == 0 {
      Associate(st.data, st.held, buf);
      PassedStreams(st, bytes + buf, all, k, cap);
    } else {
      assert st.data + [] == st.data && all[..k][..0] == [];
      LostStreams(st, bytes, buf, cap);
    }
  }

  lemma LenStreams(st: Stream, len: nat, bytes: Bytes, cap: nat)
    requires Streams(st, bytes, cap) && len < WORD
    ensures Streams(PutLen(st, len), bytes + EncodeLen(len), cap) && PutLen(st, len).faults >= st.faults
  {
    if len < 16384 {
      PutStreams(st, EncodeLen(len), bytes, cap);
    } else {
      var form, digits := [BS_32BIT * 64], Net(len, 4);
      var st1 := Put(st, form);
      PutStreams(st, form, bytes, cap);
      Associate(bytes, form, digits);
      if Failed(st, st1) {
        LostStreams(st1, bytes + form, digits, cap);
      } else {
        PutStreams(st1, digits, bytes + form, cap);
      }
    }
  }

  lemma RawStreams(st: Stream, str: Bytes, bytes: Bytes, cap: nat)
    requires Streams(st, bytes, cap)
    ensures Streams(PutRaw(st, str), bytes + EncodeRaw(str), cap) && PutRaw(st, str).faults >= st.faults
  {
    if str == [] {
      assert bytes + [] == bytes;
    } else {
      var len := |str| % WORD;
      var st1 := PutLen(st, len);
      LenStreams(st, len, bytes, cap);
      Associate(bytes, EncodeLen(len), str);
      if Failed(st, st1) {
        LostStreams(st1, bytes + EncodeLen(len), str, cap);
      } else {
        PutStreams(st1, str, bytes + EncodeLen(len), cap);
      }
    }
  }

  /** Writing a record keeps account of its bytes, wherever stdio cuts them and whatever write fails. */
  lemma RecordStreams(st: Stream, r: Record, bytes: Bytes, cap: nat)
    requires Streams(st, bytes, cap)
    ensures Streams(PutRecord(st, r), bytes + EncodeRecord(r), cap) && PutRecord(st, r).faults >= st.faults
  {
    var st1 := Put(st, [r.kind]);
    PutStreams(st, [r.kind], bytes, cap);
    Associate(bytes, [r.kind], EncodeRaw(r.payload));
    if Failed(st, st1) {
      LostStreams(st1, bytes + [r.kind], EncodeRaw(r.payload), cap);
    } else {
      RawStreams(st1, r.payload, bytes + [r.kind], cap);
    }
  }

  lemma PutFails(st: Stream, buf: Bytes)
    requires Failed(st, Put(st, buf))
    ensures Put(st, buf).held == [] && Put(st, buf).room == 0 && Put(st, buf).faults == st.faults + 1
  {
  }

  lemma LenFails(st: Stream, len: nat)
    requires len < WORD
    ensures var st' := PutLen(st, len);
      if Failed(st, st') then st'.held == [] && st'.room == 0 && st'.faults == st.faults + 1
      else st'.faults == st.faults
  {
    if len < 16384 {
      if Failed(st, Put(st, EncodeLen(len))) {
        PutFails(st, EncodeLen(len));
      }
    } else {
      var st1 := Put(st, [BS_32BIT * 64]);
      if Failed(st, st1) {
        PutFails(st, [BS_32BIT * 64]);
      } else if Failed(st1, Put(st1, Net(len, 4))) {
        PutFails(st1, Net(len, 4));
      }
    }
  }

  /** Nothing more of a record is given to stdio once a write of it has failed: there is just that one failure, and
      stdio holds nothing then. */
  lemma RecordFails(st: Stream, r: Record)
    requires Failed(st, PutRecord(st, r))
    ensures var st' := PutRecord(st, r); st'.held == [] && st'.room == 0 && st'.faults == st.faults + 1
  {
    var st1 := Put(st, [r.kind]);
    if Failed(st, st1) {
      PutFails(st, [r.kind]);
    } else if r.payload != [] {
      var st2 := PutLen(st1, |r.payload| % WORD);
      LenFails(st1, |r.payload| % WORD);
      if !Failed(st1, st2) && Failed(st2, Put(st2, r.payload)) {
        PutFails(st2, r.payload);
      }
    }
  }

  /** When stdio is flushed, everything is on the device, or the device is full of what came first. The flush succeeds
      if everything fits, and otherwise exactly when a write failed before and nothing has been held back since. */
  lemma FlushTells(st: Stream, bytes: Bytes, cap: nat)
    requires Streams(st, bytes, cap)
    ensures Flushed(st).data == if |bytes| <= cap then bytes else bytes[..cap]
    ensures !Failed(st, Flushed(st)) <==> |bytes| <= cap || (st.faults > 0 && st.held == [])
  {
    if st.faults == 0 {
      assert st.held[..|st.held|] == st.held && st.held[|st.held|..] == [];
      PassedStreams(st, bytes, st.held, |st.held|, cap);
    } else {
      assert st.data + [] == st.data && st.held[..0] == [];
    }
  }

  class File {
    var data: Bytes          // on the device
    var room: nat            // how many more bytes the device takes
    var pos: nat
    var held: Bytes          // by stdio, in writing
    var buffered: nat
    ghost var faults: nat    // how many writes have failed
    const spill: Spill

    ghost predicate Valid()
      reads this`pos, this`data
    {
      pos <= |data|
    }

    /** The bytes still to be read. */
    ghost function Rest(): Bytes
      requires Valid()
      reads this`pos, this`data
    {
      data[pos..]
    }

    ghost function Out(): Stream
      reads this`data, this`room, this`held, this`faults
    {
      Stream(data, room, held, faults, spill)
    }

    constructor (data: Bytes, room: nat, spill: Spill)
      ensures Valid() && this.data == data && pos == 0 && buffered == 0 && Out() == Stream(data, room, [], 0, spill)
    {
      this.data, this.room, this.spill, pos, held, buffered, faults := data, room, spill, 0, [], 0, 0;
    }

    /** stdio passes bytes on and keeps others. */
    method Pass(bytes: Bytes, rest: Bytes) returns (ok: bool)
      modifies this`data, this`room, this`held, this`faults
      ensures Out() == Passed(old(Out()), bytes, rest) && ok == !Failed(old(Out()), Out())
    {
      ok := |bytes| <= room;
      if ok {
        data, room, held := data + bytes, room - |bytes|, rest;
      } else {
        data, room, held, faults := data + bytes[..room], 0, [], faults + 1;
      }
    }

    /** Writes some bytes as one item: 1, or 0 when the write fails. */
    method FileWrite(buf: Bytes) returns (n: nat)
      modifies this`data, this`room, this`held, this`faults, this`buffered
      ensures Out() == Put(old(Out()), buf)
      ensures n == if buf == [] || Failed(old(Out()), Out()) then 0 else 1
      ensures buffered == old(buffered) + if n == 0 then 0 else |buf|
    {
      var all, k := held + buf, spill(held, buf);
      if k > |all| {
        k := |all|;
      }
      var ok := Pass(all[..k], all[k..]);
      if buf == [] || !ok {
        return 0;
      }
      buffered := buffered + |buf|;
      return 1;
    }

    method FileFlush() returns (n: int)
      modifies this`data, this`room, this`held, this`faults
      ensures Out() == Flushed(old(Out())) && n == if Failed(old(Out()), Out()) then -1 else 0
    {
      var ok := Pass(held, []);
      n := if ok then 0 else -1;
    }

    /** Reads len bytes as one item: all of them or, at the end of the file, none that count. */
    method FileRead(len: nat) returns (n: nat, buf: Bytes)
      requires Valid()
      modifies this`pos
      ensures Valid() && (n == 1 <==> 0 < len <= |old(Rest())|) && n <= 1
      ensures n == 1 ==> buf == old(Rest())[..len] && Rest() == old(Rest())[len..]
      ensures n == 0 ==> buf == [] && Rest() == if len == 0 then old(Rest()) else []
    {
      if len == 0 {
        return 0, [];
      }
      if |data| - pos < len {
        pos := |data|;
        return 0, [];
      }
      n, buf := 1, data[pos..pos + len];
      pos := pos + len;
    }

    /** Writes the code of a length and answers with its size, or -1 when a write fails. */
    method SaveLen(len: nat) returns (n: int)
      requires len < WORD
      modifies this`data, this`room, this`held, this`faults, this`buffered
      ensures Out() == PutLen(old(Out()), len)
      ensures n == if Failed(old(Out()), Out()) then -1 else |EncodeLen(len)|
    {
      var k;
      if len < 64 {
        k := FileWrite([BS_6BIT * 64 + len]);
        return if k == 0 then -1 else 1;
      } else if len < 16384 {
        k := FileWrite([BS_14BIT * 64 + len / 256, len % 256]);
        return if k == 0 then -1 else 2;
      }
      k := FileWrite([BS_32BIT * 64]);
      if k == 0 {
        return -1;
      }
      k := FileWrite(Net(len, 4));
      return if k == 0 then -1 else 5;
    }

    method LoadLen() returns (len: nat)
      requires Valid()
      modifies this`pos
      ensures Valid() && (len, Rest()) == DecodeLen(old(Rest()))
    {
      var n, buf := FileRead(1);
      if n == 0 {
        return LEN_ERR;
      }
      var form, low := buf[0] as int / 64, buf[0] as int % 64;
      if form == BS_6BIT {
        return low;
      } else if form == BS_14BIT {
        n, buf := FileRead(1);
        if n == 0 {
          return LEN_ERR;
        }
        return low * 256 + buf[0] as int;
      } else if form == BS_32BIT {
        n, buf := FileRead(4);
        if n == 0 {
          return LEN_ERR;
        }
        assert old(Rest())[1..5] == buf;
        return Num32(buf);
      } else {
        return LEN_ERR;
      }
    }

    /** Writes a string behind its length, nothing for an empty one; answers with the bytes written, or -1 when a write
        fails. */
    method SaveRawString(str: Bytes) returns (n: int)
      modifies this`data, this`room, this`held, this`faults, this`buffered
      ensures Out() == PutRaw(old(Out()), str)
      ensures n == if Failed(old(Out()), Out()) then -1 else |EncodeRaw(str)|
    {
      n := 0;
      if |str| > 0 {
        n := SaveLen(|str| % WORD);
        if n <= 0 {
          return -1;
        }
        var k := FileWrite(str);
        if k == 0 {
          return -1;
        }
        n := n + |str|;
      }
    }

    method LoadRawString() returns (str: Option<Bytes>)
      requires Valid()
      modifies this`pos
      ensures Valid() && (str, Rest()) == DecodeRaw(old(Rest()))
    {
      var len := LoadLen();
      if len == LEN_ERR {
        return None;
      }
      var n, buf := FileRead(len);
      if n == 0 {
        return None;
      }
      return Some(buf);
    }

    method LoadType() returns (kind: int)
      requires Valid()
      modifies this`pos
      ensures Valid() && (old(Rest()) == [] ==> kind == -1 && Rest() == [])
      ensures old(Rest()) != [] ==> kind == old(Rest())[0] && Rest() == old(Rest())[1..]
    {
      var n, buf := FileRead(1);
      if n == 0 {
        return -1;
      }
      return buf[0];
    }

    /** Writes a record. A write that fails is an error; so is a record without payload, which leaves a lone type
        byte. */
    method SaveObj(r: Record) returns (n: int)
      modifies this`data, this`room, this`held, this`faults, this`buffered
      ensures Out() == PutRecord(old(Out()), r)
      ensures n == if r.payload == [] || Failed(old(Out()), Out()) then -1 else |EncodeRecord(r)|
    {
      var k := FileWrite([r.kind]);
      if k == 0 {
        return -1;
      }
      var m := SaveRawString(r.payload);
      n := if m <= 0 then -1 else 1 + m;
    }
  }
}
