/** The database: its sorted sets, saved to and loaded from a file. */
module Db {
  import opened SkipLists
  import opened SortSets
  import opened Records
  import opened Sldb
  import opened DbSpec
  import opened DbFile

  /** What the database can see of a sorted set: the objects it is made of, and what they hold. */
  datatype Shot =
    Shot(s: SortSet, sl: SkipList, repr: set<Node>, order: seq<Node>, length: nat, dict: map<string, real>, misses: nat)

  type Shots = map<string, Shot>

  /** The sorted sets of two keys share nothing. */
  predicate Sep(sh: Shots, k: string, l: string)
    requires k in sh && l in sh
  {
    k != l ==> sh[k].s != sh[l].s && sh[k].sl != sh[l].sl && sh[k].repr !! sh[l].repr
  }

  ghost predicate Separate(sh: Shots) {
    forall k, l {:trigger Sep(sh, k, l)} :: k in sh && l in sh ==> Sep(sh, k, l)
  }

  predicate Own(sh: Shots, k: string, sets: set<SortSet>, lists: set<SkipList>, nodes: set<Node>)
    requires k in sh
  {
    sh[k].s in sets && sh[k].sl in lists && sh[k].repr <= nodes && |sh[k].order| > 0
  }

  /** These are all the objects of the sorted sets. */
  ghost predicate Owned(sh: Shots, sets: set<SortSet>, lists: set<SkipList>, nodes: set<Node>) {
    forall k {:trigger Own(sh, k, sets, lists, nodes)} :: k in sh ==> Own(sh, k, sets, lists, nodes)
  }

  /** Every table as the sequence of its entries. */
  ghost function ViewOf(sh: Shots): Tables {
    map k | k in sh :: if |sh[k].order| > 0 then Entries(sh[k].order) else []
  }

  ghost function LengthsOf(sh: Shots): Sizes {
    map k | k in sh :: sh[k].length
  }

  predicate NoMiss(sh: Shots, k: string)
    requires k in sh
  {
    sh[k].misses == 0
  }

  /** No deletion has missed: in every table dictionary and list agree. */
  ghost predicate NoMisses(sh: Shots) {
    forall k {:trigger NoMiss(sh, k)} :: k in sh ==> NoMiss(sh, k)
  }

  lemma ViewKeys(sh: Shots)
    ensures ViewOf(sh).Keys == sh.Keys
  {
  }

  lemma ViewAt(sh: Shots, k: string)
    requires k in sh && |sh[k].order| > 0
    ensures k in ViewOf(sh) && ViewOf(sh)[k] == Entries(sh[k].order)
  {
  }

  /** One sorted set has changed, and the nodes it has now that it had not before are new. */
  lemma Regrown(sh: Shots, key: string, now: Shot, sets: set<SortSet>, lists: set<SkipList>, nodes: set<Node>)
    requires Owned(sh, sets, lists, nodes) && Separate(sh) && key in sh && now.s == sh[key].s && now.sl == sh[key].sl
    requires (now.repr - sh[key].repr) !! nodes && |now.order| > 0
    ensures Owned(sh[key := now], sets, lists, nodes + now.repr) && Separate(sh[key := now])
    ensures NoMisses(sh) && now.misses == 0 ==> NoMisses(sh[key := now])
    ensures ViewOf(sh[key := now]) == ViewOf(sh)[key := Entries(now.order)]
  {
    var sh' := sh[key := now];
    assert Own(sh, key, sets, lists, nodes);
    forall k | k in sh' ensures Own(sh', k, sets, lists, nodes + now.repr) {
      assert Own(sh, k, sets, lists, nodes);
    }
    forall k, l | k in sh' && l in sh' ensures Sep(sh', k, l) {
      assert Own(sh, k, sets, lists, nodes) && Own(sh, l, sets, lists, nodes);
      assert Sep(sh, k, l);
    }
    forall k | k in sh' && NoMisses(sh) && now.misses == 0 ensures NoMiss(sh', k) {
      assert NoMiss(sh, k);
    }
  }

  /** A new sorted set has come in. */
  lemma Joined(sh: Shots, key: string, now: Shot, sets: set<SortSet>, lists: set<SkipList>, nodes: set<Node>)
    requires Owned(sh, sets, lists, nodes) && Separate(sh) && key !in sh
    requires now.s !in sets && now.sl !in lists && now.repr !! nodes && |now.order| > 0
    ensures Owned(sh[key := now], sets + {now.s}, lists + {now.sl}, nodes + now.repr) && Separate(sh[key := now])
    ensures NoMisses(sh) && now.misses == 0 ==> NoMisses(sh[key := now])
    ensures ViewOf(sh[key := now]) == ViewOf(sh)[key := Entries(now.order)]
  {
    var sh' := sh[key := now];
    forall k | k in sh' ensures Own(sh', k, sets + {now.s}, lists + {now.sl}, nodes + now.repr) {
      assert k != key ==> Own(sh, k, sets, lists, nodes);
    }
    forall k, l | k in sh' && l in sh' ensures Sep(sh', k, l) {
      assert k != key ==> Own(sh, k, sets, lists, nodes);
      assert l != key ==> Own(sh, l, sets, lists, nodes);
      assert k != key && l != key ==> Sep(sh, k, l);
    }
    forall k | k in sh' && NoMisses(sh) && now.misses == 0 ensures NoMiss(sh', k) {
      assert k != key ==> NoMiss(sh, k);
    }
  }

  ghost function ShotOf(s: SortSet): Shot
    reads s`dict, s`misses, s.sl`repr, s.sl`order, s.sl`length
  {
    Shot(s, s.sl, s.sl.repr, s.sl.order, s.sl.length, s.dict, s.misses)
  }

  /** Nothing has changed but what the key stands for. */
  ghost predicate OnlyAt(sh: Shots, sh': Shots, key: string) {
    key in sh' && sh' == sh[key := sh'[key]]
  }

  /** A sorted set without members. */
  ghost predicate IsEmpty(shot: Shot) {
    |shot.order| > 0 && Entries(shot.order) == [] && shot.dict == map[] && shot.misses == 0
  }

  /** The key stands for a sorted set, a new one if it stood for none. */
  ghost predicate Made(sh: Shots, sh': Shots, key: string) {
    OnlyAt(sh, sh', key) && if key in sh then sh' == sh else IsEmpty(sh'[key])
  }

  lemma MadeView(sh: Shots, sh': Shots, key: string)
    requires Made(sh, sh', key)
    ensures ViewOf(sh') == (if key in sh then ViewOf(sh) else ViewOf(sh)[key := []]) && (NoMisses(sh) ==> NoMisses(sh'))
  {
    if key !in sh {
      ViewAt(sh', key);
      forall k | k in sh' && NoMisses(sh) ensures NoMiss(sh', k) {
        assert k != key ==> NoMiss(sh, k);
      }
    }
  }

  lemma SetTwice(sh: Shots, mid: Shots, sh': Shots, key: string)
    requires OnlyAt(sh, mid, key) && OnlyAt(mid, sh', key)
    ensures OnlyAt(sh, sh', key)
  {
  }

  lemma SetSame(sh: Shots, key: string)
    requires key in sh
    ensures OnlyAt(sh, sh, key)
  {
  }

  /** What an update of one member does to its sorted set. */
  ghost predicate Updated(was: Shot, now: Shot, e: Entry)
    requires |was.order| > 0 && |now.order| > 0
  {
    && now.s == was.s && now.sl == was.sl && now.dict == was.dict[e.val := e.score]
    && now.misses == was.misses + (if MoveFinds(was.dict, Entries(was.order), e.val, e.score) then 0 else 1)
    && ListUpdates(was.dict, now.misses, Entries(was.order), e, Entries(now.order))
  }

  /** What the deletion of one member does. */
  ghost predicate Deleted(was: Shot, now: Shot, data: string)
    requires |was.order| > 0 && |now.order| > 0 && data in was.dict
  {
    && now.s == was.s && now.sl == was.sl && now.dict == was.dict - {data}
    && now.misses == was.misses + (if exists t :: Findable(Entries(was.order), was.dict[data], data, t) then 0 else 1)
    && ListDeletes(was.dict, Entries(was.order), data, Entries(now.order))
  }

  /** A sorted set among these objects, in the state that the shot shows. */
  ghost predicate SoundSet(s: SortSet, shot: Shot, sets: set<SortSet>, lists: set<SkipList>, nodes: set<Node>)
    reads sets, lists, nodes
  {
    s in sets && s.sl in lists && s.sl.repr <= nodes && s.Valid() && shot == ShotOf(s)
  }

  ghost predicate AllSound(dict: map<string, SortSet>, sh: Shots, sets: set<SortSet>, lists: set<SkipList>,
                           nodes: set<Node>)
    reads sets, lists, nodes
  {
    && sh.Keys == dict.Keys
    && forall k {:trigger SoundSet(dict[k], sh[k], sets, lists, nodes)} :: k in dict ==>
      SoundSet(dict[k], sh[k], sets, lists, nodes)
  }

  /** All sorted sets but one are sound. */
  ghost predicate OthersSound(dict: map<string, SortSet>, sh: Shots, key: string, sets: set<SortSet>,
                              lists: set<SkipList>, nodes: set<Node>)
    reads sets, lists, nodes
  {
    && sh.Keys == dict.Keys
    && forall k {:trigger SoundSet(dict[k], sh[k], sets, lists, nodes)} :: k in dict && k != key ==>
      SoundSet(dict[k], sh[k], sets, lists, nodes)
  }

  lemma SoundAmongMore(s: SortSet, shot: Shot, sets: set<SortSet>, lists: set<SkipList>, nodes: set<Node>,
                       sets': set<SortSet>, lists': set<SkipList>, nodes': set<Node>)
    requires SoundSet(s, shot, sets, lists, nodes) && sets <= sets' && lists <= lists' && nodes <= nodes'
    ensures SoundSet(s, shot, sets', lists', nodes')
  {
  }

  /** One sound sorted set more, or instead of what the key stood for. */
  lemma OneMoreSound(dict: map<string, SortSet>, sh: Shots, sets: set<SortSet>, lists: set<SkipList>, nodes: set<Node>,
                     key: string, s: SortSet)
    requires OthersSound(dict, sh, key, sets, lists, nodes) && s.Valid()
    ensures AllSound(dict[key := s], sh[key := ShotOf(s)], sets + {s}, lists + {s.sl}, nodes + s.sl.repr)
  {
    var dict', sh', sets', lists', nodes' :=
      dict[key := s], sh[key := ShotOf(s)], sets + {s}, lists + {s.sl}, nodes + s.sl.repr;
    assert SoundSet(s, sh'[key], sets', lists', nodes');
    forall k | k in dict' && k != key ensures SoundSet(dict'[k], sh'[k], sets', lists', nodes') {
      assert SoundSet(dict[k], sh[k], sets, lists, nodes);
      SoundAmongMore(dict[k], sh[k], sets, lists, nodes, sets', lists', nodes');
    }
  }

  /** The sorted set that a key stands for. */
  ghost predicate Stands(dict: map<string, SortSet>, sh: Shots, key: string, sets: set<SortSet>, lists: set<SkipList>,
                         nodes: set<Node>)
    reads sets, lists, nodes
  {
    key in dict && key in sh && SoundSet(dict[key], sh[key], sets, lists, nodes) && |sh[key].order| > 1
  }

  /** All these keys stand for sorted sets with members. */
  ghost predicate AllStand(dict: map<string, SortSet>, sh: Shots, order: seq<string>, sets: set<SortSet>,
                           lists: set<SkipList>, nodes: set<Node>)
    reads sets, lists, nodes
  {
    forall i {:trigger order[i]} :: 0 <= i < |order| ==> Stands(dict, sh, order[i], sets, lists, nodes)
  }

  method SaveKey(f: File, c: Codec, key: string, dict: map<string, SortSet>, ghost sh: Shots, ghost sets: set<SortSet>,
                 ghost lists: set<SkipList>, ghost nodes: set<Node>)
    requires Stands(dict, sh, key, sets, lists, nodes)
    modifies f`data, f`room, f`held, f`faults, f`buffered
    ensures key in ViewOf(sh)
    ensures f.Out() == PutTable(old(f.Out()), c, key, SizeOf(LengthsOf(sh), key), ViewOf(sh)[key])
  {
    ViewAt(sh, key);
    SaveTable(f, c, key, dict[key].sl.length, dict[key].sl);
  }

  /** The first i tables have been written. */
  ghost predicate Upto(st: Stream, st0: Stream, c: Codec, sh: Shots, order: seq<string>, i: nat) {
    && i <= |order| && (forall j {:trigger order[j]} :: 0 <= j < |order| ==> order[j] in ViewOf(sh))
    && st == PutTables(st0, c, ViewOf(sh), LengthsOf(sh), order[..i])
  }

  lemma NextTable(st: Stream, st0: Stream, c: Codec, sh: Shots, order: seq<string>, i: nat)
    requires Upto(st, st0, c, sh, order, i) && i < |order|
    ensures Upto(PutTable(st, c, order[i], SizeOf(LengthsOf(sh), order[i]), ViewOf(sh)[order[i]]),
                 st0, c, sh, order, i + 1)
  {
    OneMoreTable(st0, c, ViewOf(sh), LengthsOf(sh), order, i);
  }

  /** Writing a table leaves all sorted sets as they are. */
  method SaveNext(f: File, c: Codec, order: seq<string>, i: nat, dict: map<string, SortSet>, ghost sh: Shots,
                  ghost sets: set<SortSet>, ghost lists: set<SkipList>, ghost nodes: set<Node>, ghost st: Stream)
    requires AllStand(dict, sh, order, sets, lists, nodes) && i < |order| && Upto(f.Out(), st, c, sh, order, i)
    modifies f`data, f`room, f`held, f`faults, f`buffered
    ensures AllStand(dict, sh, order, sets, lists, nodes) && Upto(f.Out(), st, c, sh, order, i + 1)
  {
    NextTable(f.Out(), st, c, sh, order, i);
    SaveKey(f, c, order[i], dict, sh, sets, lists, nodes);
  }

  lemma AllTables(st: Stream, st0: Stream, c: Codec, sh: Shots, order: seq<string>)
    requires Upto(st, st0, c, sh, order, |order|)
    ensures st == PutTables(st0, c, ViewOf(sh), LengthsOf(sh), order)
  {
    assert order[..|order|] == order;
  }

  method SaveTables(f: File, c: Codec, order: seq<string>, dict: map<string, SortSet>, ghost sh: Shots,
                    ghost sets: set<SortSet>, ghost lists: set<SkipList>, ghost nodes: set<Node>)
    requires AllStand(dict, sh, order, sets, lists, nodes)
    requires forall i {:trigger order[i]} :: 0 <= i < |order| ==> order[i] in ViewOf(sh)
    modifies f`data, f`room, f`held, f`faults, f`buffered
    ensures f.Out() == PutTables(old(f.Out()), c, ViewOf(sh), LengthsOf(sh), order)
  {
    ghost var st := f.Out();
    for i := 0 to |order|
      invariant AllStand(dict, sh, order, sets, lists, nodes) && Upto(f.Out(), st, c, sh, order, i)
    {
      SaveNext(f, c, order, i, dict, sh, sets, lists, nodes, st);
    }
    AllTables(f.Out(), st, c, sh, order);
  }

  ghost predicate LevelsOk(lvl: nat -> nat) {
    forall n {:trigger lvl(n)} :: 1 <= lvl(n) <= MAXLEVEL
  }

  method FillOne(s: SortSet, m: Msg, i: nat, draws: nat, lvl: nat -> nat, ghost es: seq<Entry>)
      returns (draws': nat, ghost es': seq<Entry>)
    requires s.Valid() && m.Keys? && i < |m.key| && i < |m.val| && LevelsOk(lvl) && es == s.List()
    modifies s, s.sl, s.sl.repr
    ensures s.Valid() && fresh(s.sl.repr - old(s.sl.repr)) && s.misses == old(s.misses) && es' == s.List()
    ensures s.misses == 0 ==> Filled(es', draws', m, i + 1, lvl) == Filled(es, draws, m, i, lvl)
  {
    if s.misses == 0 {
      MemberOfDict(s.dict, es, m.val[i]);
    }
    FilledOne(es, draws, m, i, lvl);
    var ok := s.Insert(m.key[i], m.val[i], lvl(draws));
    draws', es' := if ok then draws + 1 else draws, s.List();
  }

  /** The loop that inserts the members of a message; lvl(n) is the n-th level drawn for a new node. */
  method Fill(s: SortSet, m: Msg, draws0: nat, lvl: nat -> nat) returns (draws: nat)
    requires s.Valid() && m.Keys? && LevelsOk(lvl)
    modifies s, s.sl, s.sl.repr
    ensures s.Valid() && fresh(s.sl.repr - old(s.sl.repr)) && s.misses == old(s.misses)
    ensures s.misses == 0 ==> (s.List(), draws) == Filled(old(s.List()), draws0, m, 0, lvl)
  {
    draws := draws0;
    ghost var es := s.List();
    ghost var goal := Filled(es, draws, m, 0, lvl);
    var i := 0;
    while i < |m.key| && i < |m.val|
      invariant 0 <= i && s.Valid() && fresh(s.sl.repr - old(s.sl.repr)) && s.misses == old(s.misses)
      invariant es == s.List() && (s.misses == 0 ==> Filled(es, draws, m, i, lvl) == goal)
      decreases |m.key| - i
    {
      draws, es := FillOne(s, m, i, draws, lvl, es);
      i := i + 1;
    }
    assert s.misses == 0 ==> Filled(es, draws, m, i, lvl) == (es, draws);
  }

  method SaveHead(f: File, c: Codec, time: string) returns (ret: int)
    modifies f`data, f`room, f`held, f`faults, f`buffered
    ensures (f.Out(), ret) == var (st, ok) := PutHead(old(f.Out()), c, time); (st, if ok then 0 else -1)
  {
    var n := Write(f, c, Version("BIS_V1", "CaiZhiLi", time));
    if n < 0 {
      return -1;
    }
    n := Write(f, c, DbNum(1));
    return if n < 0 then -1 else 0;
  }

  /** Whether fsync, fclose and rename go well. */
  datatype Finish = Finish(syncs: bool, closes: bool, renames: bool)

  /** The file is flushed and closed, and takes the place of the database file. */
  method FinishFile(f: File, fin: Finish) returns (ret: int)
    modifies f`data, f`room, f`held, f`faults
    ensures f.Out() == Flushed(old(f.Out())) && (ret == 0 || ret == -1)
    ensures ret == 0 <==> !Failed(old(f.Out()), f.Out()) && fin == Finish(true, true, true)
  {
    var n := f.FileFlush();
    if n < 0 || !fin.syncs || !fin.closes {
      return -1;
    }
    ret := if fin.renames then 0 else -1;
  }

  class Database {
    var db_dict: map<string, SortSet>
    ghost var shots: Shots          // what each sorted set is made of and holds
    ghost var sets: set<SortSet>    // every sorted set, list and node the database owns
    ghost var lists: set<SkipList>
    ghost var nodes: set<Node>

    ghost predicate Valid()
      reads this, sets, lists, nodes
    {
      Owned(shots, sets, lists, nodes) && Separate(shots) && AllSound(db_dict, shots, sets, lists, nodes)
    }

    /** Every table as the sequence of its entries, and the length each list records. */
    ghost function View(): Tables
      reads this`shots
    {
      ViewOf(shots)
    }

    ghost function Lengths(): Sizes
      reads this`shots
    {
      LengthsOf(shots)
    }

    /** No deletion has missed in any table. */
    ghost predicate AllAgree()
      reads this`shots
    {
      NoMisses(shots)
    }

    constructor ()
      ensures Valid() && AllAgree() && shots == map[] && View() == map[] && sets == {} && lists == {} && nodes == {}
    {
      db_dict, shots, sets, lists, nodes := map[], map[], {}, {}, {};
    }

    /** These are tables, and each has a member. */
    ghost predicate Nonempty(order: seq<string>)
      reads this`shots
    {
      forall i {:trigger order[i]} :: 0 <= i < |order| ==> order[i] in shots && |shots[order[i]].order| > 1
    }

    /** What SaveToFile does, in terms of stdio: st is what it had got before the flush, and ok tells whether it came to
        that. */
    method WriteFile(f: File, c: Codec, order: seq<string>, time: string, fin: Finish)
        returns (ret: int, ghost st: Stream, ghost ok: bool)
      requires Valid() && Nonempty(order)
      modifies f`data, f`room, f`held, f`faults, f`buffered
      ensures ret == 0 || ret == -1
      ensures (st, ok) == PutDb(old(f.Out()), c, View(), Lengths(), order, time) && (ok ==> f.Out() == Flushed(st))
      ensures ret == 0 <==> ok && !Failed(st, Flushed(st)) && fin == Finish(true, true, true)
    {
      ret := SaveHead(f, c, time);
      ok := ret == 0;
      if ret < 0 {
        st := f.Out();
        return;
      }
      SaveTables(f, c, order, db_dict, shots, sets, lists, nodes);
      st := f.Out();
      ret := FinishFile(f, fin);
    }

    /** SaveToFile, from the moment the temporary file is open. It answers 0 when it has put that in the place of the
        database file. */
    method SaveToFile(f: File, c: Codec, order: seq<string>, time: string, fin: Finish)
        returns (ret: int, ghost st: Stream, ghost ok: bool)
      requires Valid() && Opened(f.Out(), f.room) && Nonempty(order)
      modifies f`data, f`room, f`held, f`faults, f`buffered
      ensures ret == 0 || ret == -1
      ensures (st, ok) == PutDb(old(f.Out()), c, View(), Lengths(), order, time)
      ensures var (ms, cap) := (DbMsgs(c, View(), Lengths(), order, time), old(f.room));
        && (ret == 0 ==> f.data == if Overflows(c, ms, cap) then FileOf(c, ms)[..cap] else FileOf(c, ms))
        && (!Overflows(c, ms, cap) ==> (ret == 0 <==> HeadFilled(c, time) && fin == Finish(true, true, true)))
        && (Overflows(c, ms, cap) ==>
          (ret == 0 <==> ok && st.faults > 0 && st.held == [] && fin == Finish(true, true, true)))
    {
      ghost var st0, cap, ts, sizes := f.Out(), f.room, View(), Lengths();
      ret, st, ok := WriteFile(f, c, order, time, fin);
      SavingTells(st0, c, ts, sizes, order, time, cap);
      assert f.data == f.Out().data;
    }

    // ----- loading

    method Enter(key: string, s: SortSet)
      modifies this
      ensures db_dict == old(db_dict)[key := s] && shots == old(shots)[key := ShotOf(s)]
      ensures sets == old(sets) + {s} && lists == old(lists) + {s.sl} && nodes == old(nodes) + s.sl.repr
    {
      db_dict, shots := db_dict[key := s], shots[key := ShotOf(s)];
      sets, lists, nodes := sets + {s}, lists + {s.sl}, nodes + s.sl.repr;
    }

    /** A new sorted set comes in, as far as the objects are concerned. */
    method NewTable(key: string) returns (s: SortSet)
      requires key !in db_dict && AllSound(db_dict, shots, sets, lists, nodes)
      modifies this
      ensures db_dict == old(db_dict)[key := s] && key in shots && shots == old(shots)[key := shots[key]]
      ensures sets == old(sets) + {s} && lists == old(lists) + {shots[key].sl} && nodes == old(nodes) + shots[key].repr
      ensures AllSound(db_dict, shots, sets, lists, nodes)
      ensures fresh(s) && fresh(shots[key].sl) && fresh(shots[key].repr)
      ensures shots[key].s == s && IsEmpty(shots[key])
    {
      s := new SortSet();
      OneMoreSound(db_dict, shots, sets, lists, nodes, key, s);
      Enter(key, s);
    }

    /** A new sorted set for a key that has none. */
    method MakeTable(key: string) returns (s: SortSet)
      requires Valid() && key !in db_dict
      modifies this
      ensures Valid() && db_dict == old(db_dict)[key := s]
      ensures fresh(sets - old(sets)) && fresh(lists - old(lists)) && fresh(nodes - old(nodes))
      ensures Made(old(shots), shots, key)
    {
      ghost var sh, ss, ls, ns := shots, sets, lists, nodes;
      s := NewTable(key);
      Joined(sh, key, shots[key], ss, ls, ns);
    }

    /** The sorted set of a key, a new one if there is none. */
    method TableFor(key: string) returns (s: SortSet)
      requires Valid()
      modifies this
      ensures Valid() && key in db_dict && db_dict[key] == s && db_dict.Keys == old(db_dict).Keys + {key}
      ensures fresh(sets - old(sets)) && fresh(lists - old(lists)) && fresh(nodes - old(nodes))
      ensures Made(old(shots), shots, key)
    {
      if key in db_dict {
        s := db_dict[key];
        assert db_dict.Keys + {key} == db_dict.Keys;
        SetSame(shots, key);
      } else {
        s := MakeTable(key);
      }
    }

    /** The database takes account of what has changed in one sorted set. */
    method Adopt(ghost key: string, s: SortSet)
      requires key in db_dict && db_dict[key] == s && s in sets && s.sl in lists && s.Valid()
      requires OthersSound(db_dict, shots, key, sets, lists, nodes)
      modifies this`nodes, this`shots
      ensures nodes == old(nodes) + s.sl.repr && shots == old(shots)[key := ShotOf(s)]
      ensures AllSound(db_dict, shots, sets, lists, nodes)
    {
      OneMoreSound(db_dict, shots, sets, lists, nodes, key, s);
      assert db_dict[key := s] == db_dict && sets + {s} == sets && lists + {s.sl} == lists;
      nodes, shots := nodes + s.sl.repr, shots[key := ShotOf(s)];
    }

    /** Others are untouched when a member of one sorted set is updated. */
    method UpdateSet(ghost key: string, s: SortSet, score: real, data: string, lvl: nat) returns (ok: bool)
      requires Valid() && key in db_dict && db_dict[key] == s && 1 <= lvl <= MAXLEVEL && |s.sl.order| > 0
      modifies sets, lists, nodes
      ensures s.Valid() && fresh(s.sl.repr - old(s.sl.repr)) && ok
      ensures Updated(old(ShotOf(s)), ShotOf(s), Entry(score, data, lvl))
      ensures OthersSound(db_dict, shots, key, sets, lists, nodes)
    {
      assert SoundSet(db_dict[key], shots[key], sets, lists, nodes);
      ok := s.Update(score, data, lvl);
      forall k | k in db_dict && k != key ensures SoundSet(db_dict[k], shots[k], sets, lists, nodes) {
        assert old(SoundSet(db_dict[k], shots[k], sets, lists, nodes)) && Sep(shots, k, key);
      }
    }

    /** Others are untouched when a member of one sorted set is deleted. */
    method DeleteIn(ghost key: string, s: SortSet, data: string) returns (ok: bool)
      requires Valid() && key in db_dict && db_dict[key] == s && |s.sl.order| > 0
      modifies sets, lists, nodes
      ensures s.Valid() && s.sl.repr == old(s.sl.repr) && ok == (data in old(s.dict))
      ensures if ok then Deleted(old(ShotOf(s)), ShotOf(s), data) else ShotOf(s) == old(ShotOf(s))
      ensures OthersSound(db_dict, shots, key, sets, lists, nodes)
    {
      assert SoundSet(db_dict[key], shots[key], sets, lists, nodes);
      ok := s.DelMem(data);
      forall k | k in db_dict && k != key ensures SoundSet(db_dict[k], shots[k], sets, lists, nodes) {
        assert old(SoundSet(db_dict[k], shots[k], sets, lists, nodes)) && Sep(shots, k, key);
      }
    }

    method DeleteKnown(ghost key: string, s: SortSet, data: string) returns (ok: bool)
      requires Valid() && key in db_dict && db_dict[key] == s
      modifies this`nodes, this`shots, sets, lists, nodes
      ensures AllSound(db_dict, shots, sets, lists, nodes) && key in old(shots) && OnlyAt(old(shots), shots, key)
      ensures nodes == old(nodes) + shots[key].repr
      ensures var was, now := old(shots)[key], shots[key];
        && |was.order| > 0 && |now.order| > 0 && now.repr == was.repr
        && ok == (data in was.dict) && (if ok then Deleted(was, now, data) else now == was)
    {
      assert SoundSet(db_dict[key], shots[key], sets, lists, nodes);
      ok := DeleteIn(key, s, data);
      Adopt(key, s);
    }

    /** db::DelMem: an error unless the key has a sorted set and that has the member. */
    method DelMem(key: string, data: string) returns (ok: bool)
      requires Valid()
      modifies this`nodes, this`shots, sets, lists, nodes
      ensures Valid() && nodes == old(nodes) && ok == (key in old(shots) && data in old(shots)[key].dict)
      ensures !ok ==> shots == old(shots)
      ensures ok ==> OnlyAt(old(shots), shots, key) && |old(shots)[key].order| > 0 && |shots[key].order| > 0
                     && Deleted(old(shots)[key], shots[key], data)
    {
      if key !in db_dict {
        return false;
      }
      ghost var sh, ns := shots, nodes;
      assert Own(sh, key, sets, lists, ns);
      ok := DeleteKnown(key, db_dict[key], data);
      assert nodes == ns;
      Regrown(sh, key, shots[key], sets, lists, ns);
    }

    /** Others are untouched when one sorted set is filled. */
    method FillSet(ghost key: string, s: SortSet, m: Msg, draws: nat, lvl: nat -> nat) returns (draws': nat)
      requires Valid() && key in db_dict && db_dict[key] == s && m.Keys? && LevelsOk(lvl) && |s.sl.order| > 0
      modifies sets, lists, nodes
      ensures s.Valid() && fresh(s.sl.repr - old(s.sl.repr)) && s.misses == old(s.misses)
      ensures s.misses == 0 ==> (s.List(), draws') == Filled(old(s.List()), draws, m, 0, lvl)
      ensures OthersSound(db_dict, shots, key, sets, lists, nodes)
    {
      assert SoundSet(db_dict[key], shots[key], sets, lists, nodes);
      draws' := Fill(s, m, draws, lvl);
      forall k | k in db_dict && k != key ensures SoundSet(db_dict[k], shots[k], sets, lists, nodes) {
        assert old(SoundSet(db_dict[k], shots[k], sets, lists, nodes)) && Sep(shots, k, key);
      }
    }

    /** FillTable, as far as the objects are concerned. */
    method FillKnown(ghost key: string, s: SortSet, m: Msg, draws: nat, lvl: nat -> nat) returns (draws': nat)
      requires Valid() && key in db_dict && db_dict[key] == s && m.Keys? && LevelsOk(lvl)
      modifies this`nodes, this`shots, sets, lists, nodes
      ensures key in old(shots) && key in shots
      ensures shots == old(shots)[key := shots[key]] && nodes == old(nodes) + shots[key].repr
      ensures AllSound(db_dict, shots, sets, lists, nodes) && fresh(nodes - old(nodes))
      ensures var was, now := old(shots)[key], shots[key];
        && now.s == was.s && now.sl == was.sl && now.misses == was.misses && |was.order| > 0 && |now.order| > 0
        && fresh(now.repr - was.repr)
        && (now.misses == 0 ==> (Entries(now.order), draws') == Filled(Entries(was.order), draws, m, 0, lvl))
    {
      assert SoundSet(db_dict[key], shots[key], sets, lists, nodes);
      draws' := FillSet(key, s, m, draws, lvl);
      Adopt(key, s);
    }

    /** The members of a message go into the sorted set of a key. */
    method FillTable(ghost key: string, s: SortSet, m: Msg, draws: nat, lvl: nat -> nat)
        returns (draws': nat, ghost es: seq<Entry>)
      requires Valid() && key in db_dict && db_dict[key] == s && m.Keys? && LevelsOk(lvl)
      modifies this`nodes, this`shots, sets, lists, nodes
      ensures Valid() && fresh(nodes - old(nodes)) && key in old(View()) && View() == old(View())[key := es]
      ensures old(AllAgree()) ==> AllAgree() && (es, draws') == Filled(old(View())[key], draws, m, 0, lvl)
    {
      ghost var sh, ns := shots, nodes;
      draws' := FillKnown(key, s, m, draws, lvl);
      es := Entries(shots[key].order);
      Regrown(sh, key, shots[key], sets, lists, ns);
      ViewAt(sh, key);
      assert NoMiss(sh, key) == (sh[key].misses == 0);
    }

    /** UpdateTable, as far as the objects are concerned. */
    method UpdateKnown(ghost key: string, s: SortSet, score: real, data: string, lvl: nat) returns (ok: bool)
      requires Valid() && key in db_dict && db_dict[key] == s && 1 <= lvl <= MAXLEVEL
      modifies this`nodes, this`shots, sets, lists, nodes
      ensures ok && AllSound(db_dict, shots, sets, lists, nodes) && fresh(nodes - old(nodes))
      ensures key in old(shots) && key in shots
      ensures shots == old(shots)[key := shots[key]] && nodes == old(nodes) + shots[key].repr
      ensures var was, now := old(shots)[key], shots[key];
        |was.order| > 0 && |now.order| > 0 && fresh(now.repr - was.repr) && Updated(was, now, Entry(score, data, lvl))
    {
      assert SoundSet(db_dict[key], shots[key], sets, lists, nodes);
      ok := UpdateSet(key, s, score, data, lvl);
      Adopt(key, s);
    }

    /** A member of one sorted set is updated. */
    method UpdateTable(ghost key: string, s: SortSet, score: real, data: string, lvl: nat) returns (ok: bool)
      requires Valid() && key in db_dict && db_dict[key] == s && 1 <= lvl <= MAXLEVEL
      modifies this`nodes, this`shots, sets, lists, nodes
      ensures Valid() && ok && key in shots && fresh(nodes - old(nodes))
      ensures key in old(shots) && OnlyAt(old(shots), shots, key)
      ensures |old(shots)[key].order| > 0 && |shots[key].order| > 0
      ensures Updated(old(shots)[key], shots[key], Entry(score, data, lvl))
    {
      ghost var sh, ns := shots, nodes;
      ok := UpdateKnown(key, s, score, data, lvl);
      Regrown(sh, key, shots[key], sets, lists, ns);
    }

    /** db::Insert: the member gets the score in the sorted set of the key, which is made if there is none. */
    method Insert(key: string, score: real, data: string, lvl: nat) returns (ok: bool, ghost was: Shot)
      requires Valid() && 1 <= lvl <= MAXLEVEL
      modifies this, sets, lists, nodes
      ensures Valid() && ok && key in shots && |was.order| > 0 && |shots[key].order| > 0
      ensures fresh(sets - old(sets)) && fresh(lists - old(lists)) && fresh(nodes - old(nodes))
      ensures if key in old(shots) then was == old(shots)[key] else IsEmpty(was)
      ensures OnlyAt(old(shots), shots, key) && Updated(was, shots[key], Entry(score, data, lvl))
    {
      ghost var sh := shots;
      var s := TableFor(key);
      ghost var mid := shots;
      was := mid[key];
      ok := UpdateTable(key, s, score, data, lvl);
      SetTwice(sh, mid, shots, key);
    }

    /** In the middle of loading: the table being filled is the one the messages so far say, and as long as no deletion
        had missed before, the tables are what they say. */
    ghost predicate Loads(cur: SortSet?, draws: nat, st: Loading, agree: bool)
      reads this, sets, lists, nodes
    {
      && Valid() && st.ts.Keys == db_dict.Keys && (cur == null <==> st.cur == None)
      && (cur != null ==> st.cur.value in db_dict && db_dict[st.cur.value] == cur)
      && (agree ==> AllAgree() && View() == st.ts && draws == st.draws)
    }

    method ObeyHead(m: Msg, ghost cur: SortSet?, draws: nat, ghost lvl: nat -> nat, ghost st: Loading,
                    ghost agree: bool)
        returns (cur': SortSet)
      requires Loads(cur, draws, st, agree) && m.TableHead?
      modifies this
      ensures Loads(cur', draws, Take(st, m, lvl), agree)
      ensures fresh(sets - old(sets)) && fresh(lists - old(lists)) && fresh(nodes - old(nodes))
    {
      ghost var sh := shots;
      TakesHead(st, m.key_id, m.length, lvl);
      cur' := TableFor(m.key_id);
      MadeView(sh, shots, m.key_id);
    }

    /** Members are passed over as long as there is no table to take them. */
    method ObeyKeys(m: Msg, cur: SortSet?, draws: nat, lvl: nat -> nat, ghost st: Loading, ghost agree: bool)
        returns (draws': nat)
      requires Loads(cur, draws, st, agree) && LevelsOk(lvl) && m.Keys?
      modifies this`nodes, this`shots, sets, lists, nodes
      ensures Loads(cur, draws', Take(st, m, lvl), agree) && fresh(nodes - old(nodes))
    {
      draws' := draws;
      if cur != null {
        ghost var es, key := [], st.cur.value;
        draws', es := FillTable(key, cur, m, draws, lvl);
        TakesKeys(st, m, key, es, draws', lvl);
      }
    }

    /** The cases of the loader's switch. */
    method Obey(m: Msg, cur: SortSet?, draws: nat, lvl: nat -> nat, ghost st: Loading, ghost agree: bool)
        returns (cur': SortSet?, draws': nat)
      requires Loads(cur, draws, st, agree) && LevelsOk(lvl)
      modifies this, sets, lists, nodes
      ensures Loads(cur', draws', Take(st, m, lvl), agree)
      ensures fresh(sets - old(sets)) && fresh(lists - old(lists)) && fresh(nodes - old(nodes))
    {
      cur', draws' := cur, draws;
      match m {
        case TableHead(_, _) =>
          cur' := ObeyHead(m, cur, draws, lvl, st, agree);
        case Keys(_, _) =>
          draws' := ObeyKeys(m, cur, draws, lvl, st, agree);
        case _ =>
          assert Take(st, m, lvl) == st;
      }
    }

    /** One round of the loader's loop. */
    method LoadOne(f: File, c: Codec, cur: SortSet?, draws: nat, lvl: nat -> nat, ghost st: Loading, ghost agree: bool)
        returns (kind: int, cur': SortSet?, draws': nat, ghost st': Loading)
      requires f.Valid() && Loads(cur, draws, st, agree) && LevelsOk(lvl)
      modifies this, sets, lists, nodes, f`pos
      ensures f.Valid() && Loads(cur', draws', st', agree)
      ensures fresh(sets - old(sets)) && fresh(lists - old(lists)) && fresh(nodes - old(nodes))
      ensures kind < 0 || kind > 3 ==>
        st' == st && LoadFrom(c, st, old(f.Rest()), lvl) == (st, if kind < 0 then 0 else -1)
      ensures 0 <= kind <= 3 ==> |f.Rest()| < |old(f.Rest())|
      ensures 0 <= kind <= 3 ==> LoadFrom(c, st', f.Rest(), lvl) == LoadFrom(c, st, old(f.Rest()), lvl)
    {
      cur', draws', st' := cur, draws, st;
      kind := f.LoadType();
      if kind < 0 || kind > 3 {
        return;
      }
      LoadsOne(c, st, old(f.Rest()), lvl);
      var p := f.LoadRawString();
      if p.Some? && c.parse(kind, p.value).Some? {
        var m := c.parse(kind, p.value).value;
        cur', draws' := Obey(m, cur, draws, lvl, st, agree);
        st' := Take(st, m, lvl);
      }
    }

    /** The loader's loop. */
    method LoadAll(f: File, c: Codec, lvl: nat -> nat, ghost st0: Loading, ghost agree: bool)
        returns (ret: int, ghost st: Loading)
      requires f.Valid() && Loads(null, 0, st0, agree) && LevelsOk(lvl)
      modifies this, sets, lists, nodes, f`pos
      ensures Valid() && (st, ret) == LoadFrom(c, st0, old(f.Rest()), lvl)
      ensures agree ==> AllAgree() && View() == st.ts
    {
      var cur: SortSet?, draws, kind := null, 0, 0;
      st := st0;
      ghost var goal, rest := LoadFrom(c, st, f.Rest(), lvl), f.Rest();
      while 0 <= kind <= 3
        invariant f.Valid() && Loads(cur, draws, st, agree) && rest == f.Rest()
        invariant if 0 <= kind <= 3 then LoadFrom(c, st, rest, lvl) == goal
          else goal == (st, if kind < 0 then 0 else -1)
        invariant fresh(sets - old(sets)) && fresh(lists - old(lists)) && fresh(nodes - old(nodes))
        decreases 0 <= kind <= 3, |rest|
      {
        kind, cur, draws, st := LoadOne(f, c, cur, draws, lvl, st, agree);
        rest := f.Rest();
      }
      ret := if kind < 0 then 0 else -1;
    }

    /** CheckDbFileAndLoad, once the file is open; lvl(n) is the n-th level drawn for a new node. */
    method CheckDbFileAndLoad(f: File, c: Codec, lvl: nat -> nat) returns (ret: int)
      requires Valid() && f.Valid() && LevelsOk(lvl)
      modifies this, sets, lists, nodes, f`pos
      ensures Valid() && ret == LoadFrom(c, Loading(old(View()), None, 0), old(f.Rest()), lvl).1
      ensures old(AllAgree()) ==>
        AllAgree() && View() == LoadFrom(c, Loading(old(View()), None, 0), old(f.Rest()), lvl).0.ts
    {
      ViewKeys(shots);
      ghost var st;
      ret, st := LoadAll(f, c, lvl, Loading(View(), None, 0), AllAgree());
    }
  }

  lemma ListByScore(ns: seq<Node>)
    requires |ns| > 0 && Sorted(ns)
    ensures ByScore(Entries(ns))
  {
    var es := Entries(ns);
    forall i, j | 0 <= i < j < |es| ensures es[i].score <= es[j].score {
      assert es[i] == EntryOf(ns[i + 1]) && es[j] == EntryOf(ns[j + 1]);
    }
  }

  /** What every database offers for saving: tables ordered by score, with heads that are no defaults. */
  lemma Offers(db: Database, key: string)
    requires db.Valid() && key in db.shots && |db.shots[key].order| > 1
    ensures Savable(db.View(), db.Lengths(), key)
  {
    assert SoundSet(db.db_dict[key], db.shots[key], db.sets, db.lists, db.nodes);
    ViewAt(db.shots, key);
    ListByScore(db.shots[key].order);
    assert db.shots[key].length > 0;
  }

  /** What the round trip asks beside a database whose tables have members: the order in which these are walked,
      messages that the codec reads back and that can be stored, and room for all of them. */
  ghost predicate Storing(c: Codec, ts: Tables, sizes: Sizes, order: seq<string>, time: string, room: nat) {
    && DistinctKeys(order) && (forall k {:trigger k in ts} :: k in ts <==> k in order)
    && (forall i {:trigger order[i]} :: 0 <= i < |order| ==> order[i] in ts)
    && CodesAll(c, DbMsgs(c, ts, sizes, order, time)) && !Overflows(c, DbMsgs(c, ts, sizes, order, time), room)
    && (forall m {:trigger c.ser(m)} :: m in DbMsgs(c, ts, sizes, order, time) ==> |c.ser(m)| < LEN_ERR)
  }

  lemma HeadIsFilled(c: Codec, ts: Tables, sizes: Sizes, order: seq<string>, time: string)
    requires forall i {:trigger order[i]} :: 0 <= i < |order| ==> order[i] in ts
    requires CodesAll(c, DbMsgs(c, ts, sizes, order, time))
    ensures HeadFilled(c, time)
  {
    var ms := DbMsgs(c, ts, sizes, order, time);
    assert Codes(c, ms[0]) && Codes(c, ms[1]);
  }

  method SaveWhole(db: Database, f: File, c: Codec, order: seq<string>, time: string, fin: Finish, ghost ts: Tables,
                   ghost sizes: Sizes)
      returns (saved: int)
    requires db.Valid() && ts == db.View() && sizes == db.Lengths() && Opened(f.Out(), f.room) && HeadFilled(c, time)
    requires db.Nonempty(order) && fin == Finish(true, true, true)
    requires !Overflows(c, DbMsgs(c, ts, sizes, order, time), f.room)
    modifies f`data, f`room, f`held, f`faults, f`buffered
    ensures saved == 0 && f.data == FileOf(c, DbMsgs(c, ts, sizes, order, time))
  {
    ghost var st, ok;
    saved, st, ok := db.SaveToFile(f, c, order, time, fin);
  }

  method LoadWhole(f: File, c: Codec, lvl: nat -> nat) returns (db: Database, loaded: int)
    requires f.Valid() && LevelsOk(lvl)
    modifies f`pos
    ensures db.Valid() && fresh(db) && db.AllAgree()
    ensures (loaded, db.View()) == var (st, ret) := LoadFrom(c, Loading(map[], None, 0), old(f.Rest()), lvl);
      (ret, st.ts)
  {
    db := new Database();
    loaded := db.CheckDbFileAndLoad(f, c, lvl);
  }

  /** Any database whose tables have members, saved to a file with room for it and loaded from there into an empty one:
      the tables are the same, each with the first entry of every member in the same sequence, so with all its entries
      exactly when no member stands twice in its list; and in the loaded one dictionaries and lists agree. */
  method SaveAndReload(db: Database, f: File, c: Codec, order: seq<string>, time: string, fin: Finish, lvl: nat -> nat,
                       ghost ts: Tables) returns (db': Database, saved: int, loaded: int)
    requires db.Valid() && ts == db.View() && Opened(f.Out(), f.room)
    requires f.pos == 0 && LevelsOk(lvl) && fin == Finish(true, true, true)
    requires Storing(c, ts, db.Lengths(), order, time, f.room) && db.Nonempty(order)
    modifies f
    ensures saved == 0 && loaded == 0 && db'.Valid() && db'.AllAgree() && db'.View().Keys == ts.Keys
    ensures forall k {:trigger ts[k]} :: k in ts ==> SamePairs(db'.View()[k], FirstOnes(ts[k]))
    ensures forall k {:trigger ts[k]} :: k in ts ==> (SamePairs(db'.View()[k], ts[k]) <==> Once(ts[k]))
  {
    forall i | 0 <= i < |order| ensures Savable(ts, db.Lengths(), order[i]) {
      Offers(db, order[i]);
    }
    SaveThenLoad(c, ts, db.Lengths(), order, time, lvl);
    HeadIsFilled(c, ts, db.Lengths(), order, time);
    saved := SaveWhole(db, f, c, order, time, fin, ts, db.Lengths());
    assert f.Rest() == f.data;
    db', loaded := LoadWhole(f, c, lvl);
  }

  /** As long as no deletion has missed, dictionary and list of every key agree. */
  lemma Agreed(db: Database, key: string)
    requires db.Valid() && db.AllAgree() && key in db.shots
    ensures |db.shots[key].order| > 0 && key in db.View() && Synced(db.shots[key].dict, db.View()[key])
  {
    assert SoundSet(db.db_dict[key], db.shots[key], db.sets, db.lists, db.nodes) && NoMiss(db.shots, key);
    assert Own(db.shots, key, db.sets, db.lists, db.nodes);
    ViewAt(db.shots, key);
  }

  /** The list determines the dictionary. */
  lemma SameDict(dict: map<string, real>, es: seq<Entry>, dict': map<string, real>, es': seq<Entry>)
    requires Synced(dict, es) && Synced(dict', es') && SamePairs(es', es)
    ensures dict' == dict
  {
    forall v ensures v in dict <==> v in dict' {
      MemberOfDict(dict, es, v);
      MemberOfDict(dict', es', v);
      SamePairsHave(es', es, v);
    }
    forall v | v in dict ensures dict[v] == dict'[v] {
      assert HasMember(es, v);
      var i :| 0 <= i < |es| && es[i].val == v;
      assert es'[i].val == v;
    }
  }

  /** A database whose deletions have not missed has the same dictionaries after it has been saved and loaded. */
  lemma SameDicts(db: Database, db': Database, key: string)
    requires db.Valid() && db.AllAgree() && key in db.shots && db'.Valid() && db'.AllAgree() && key in db'.shots
    requires key in db.View() && key in db'.View() && SamePairs(db'.View()[key], FirstOnes(db.View()[key]))
    ensures db'.shots[key].dict == db.shots[key].dict
  {
    var es, es' := db.View()[key], db'.View()[key];
    Agreed(db, key);
    Agreed(db', key);
    SyncedOnce(db.shots[key].dict, es);
    FirstOnesTell(es', es);
    SameDict(db.shots[key].dict, es, db'.shots[key].dict, es');
  }

  lemma MissedUpdate(es: seq<Entry>)
    requires AddedOne([Entry(1.0, "a", 1), Entry(1.0, "b", 2)], Entry(2.0, "a", 1), es)
    ensures es == [Entry(1.0, "a", 1), Entry(1.0, "b", 2), Entry(2.0, "a", 1)]
    ensures !Once(es) && FirstOnes(es) == [Entry(1.0, "a", 1), Entry(1.0, "b", 2)]
  {
    var a, b, e := Entry(1.0, "a", 1), Entry(1.0, "b", 2), Entry(2.0, "a", 1);
    assert es == [a, b] + [e] by {
      assert [a, b][..2] == [a, b] && [a, b][2..] == [];
    }
    assert es[0] == a && es[1] == b && es[2] == e && "a"[0] != "b"[0];
    assert !Among(es, 0, "a") && !Among(es, 1, "b") && Among(es, 2, "a");
    assert Firsts(es, 1) == [] + [a] && Firsts(es, 2) == [a] + [b] && Firsts(es, 3) == Firsts(es, 2);
  }

  lemma FirstUpdate(s0: Shot, s1: Shot)
    requires IsEmpty(s0) && |s1.order| > 0 && Updated(s0, s1, Entry(1.0, "a", 1))
    ensures s1.misses == 0 && s1.dict == map["a" := 1.0] && Entries(s1.order) == [Entry(1.0, "a", 1)]
  {
    assert WithEntry([], Entry(1.0, "a", 1)) == [Entry(1.0, "a", 1)];
  }

  lemma SecondUpdate(s1: Shot, s2: Shot)
    requires |s1.order| > 0 && s1.misses == 0 && s1.dict == map["a" := 1.0] && Entries(s1.order) == [Entry(1.0, "a", 1)]
    requires |s2.order| > 0 && Updated(s1, s2, Entry(1.0, "b", 2))
    ensures s2.misses == 0 && s2.dict == map["a" := 1.0, "b" := 1.0]
    ensures Entries(s2.order) == [Entry(1.0, "a", 1), Entry(1.0, "b", 2)]
  {
    HiddenByTallerTie();
    assert "a"[0] != "b"[0];
    assert WithEntry([], Entry(1.0, "a", 1)) == [Entry(1.0, "a", 1)];
  }

  /** An update that does not find the old entry only adds the new one. */
  lemma UpdateMisses(was: Shot, now: Shot, e: Entry)
    requires |was.order| > 0 && |now.order| > 0 && Updated(was, now, e)
    requires e.val in was.dict && !MoveFinds(was.dict, Entries(was.order), e.val, e.score)
    ensures AddedOne(Entries(was.order), e, Entries(now.order))
  {
  }

  lemma HiddenMisses()
    ensures !MoveFinds(map["a" := 1.0, "b" := 1.0], [Entry(1.0, "a", 1), Entry(1.0, "b", 2)], "a", 2.0)
  {
    HiddenByTallerTie();
    assert "a"[0] != "b"[0];
  }

  lemma ThirdUpdate(s2: Shot, s3: Shot)
    requires |s2.order| > 0 && s2.misses == 0 && s2.dict == map["a" := 1.0, "b" := 1.0]
    requires Entries(s2.order) == [Entry(1.0, "a", 1), Entry(1.0, "b", 2)]
    requires |s3.order| > 0 && Updated(s2, s3, Entry(2.0, "a", 1))
    ensures s3.dict == map["a" := 2.0, "b" := 1.0] && !Once(Entries(s3.order))
    ensures FirstOnes(Entries(s3.order)) == [Entry(1.0, "a", 1), Entry(1.0, "b", 2)]
  {
    HiddenMisses();
    UpdateMisses(s2, s3, Entry(2.0, "a", 1));
    assert "a"[0] != "b"[0];
    MissedUpdate(Entries(s3.order));
  }

  /** Three requests after which a member stands twice: its score is 2 in the database, and 1 in what is saved and
      loaded. */
  method LosesUpdate() returns (db: Database)
    ensures db.Valid() && "k" in db.shots && db.shots["k"].dict == map["a" := 2.0, "b" := 1.0] && "k" in db.View()
    ensures !Once(db.View()["k"]) && FirstOnes(db.View()["k"]) == [Entry(1.0, "a", 1), Entry(1.0, "b", 2)]
  {
    db := new Database();
    var ok;
    ghost var s0, s1, s2;
    ok, s0 := db.Insert("k", 1.0, "a", 1);
    FirstUpdate(s0, db.shots["k"]);
    ok, s1 := db.Insert("k", 1.0, "b", 2);
    SecondUpdate(s1, db.shots["k"]);
    ok, s2 := db.Insert("k", 2.0, "a", 1);
    ThirdUpdate(s2, db.shots["k"]);
    ViewAt(db.shots, "k");
  }
}
