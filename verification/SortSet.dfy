/**
  The sorted set of the ranking service: a dictionary from member to score, and a skip list that
  orders the same members by score.
 */
module SortSets {
  import opened SkipLists

  predicate HasMember(es: seq<Entry>, val: string) {
    exists i {:trigger es[i]} :: 0 <= i < |es| && es[i].val == val
  }

  /** Dictionary and list hold the same member-to-score map. */
  ghost predicate Synced(dict: map<string, real>, es: seq<Entry>) {
    && (forall i {:trigger es[i]} :: 0 <= i < |es| ==> es[i].val in dict && dict[es[i].val] == es[i].score)
    && (forall v {:trigger HasMember(es, v)} :: v in dict ==> HasMember(es, v))
    && (forall i, j {:trigger es[i], es[j]} :: 0 <= i < j < |es| ==> es[i].val != es[j].val)
  }

  predicate Earlier(a: Entry, b: Entry, born: map<string, nat>) {
    && a.val in born && b.val in born
    && (a.score < b.score || (a.score == b.score && born[a.val] < born[b.val]))
  }

  /** Ordered by score, and by time of insertion among equal scores. */
  ghost predicate Chronological(es: seq<Entry>, born: map<string, nat>) {
    && (forall i {:trigger es[i]} :: 0 <= i < |es| ==> es[i].val in born)
    && (forall i, j {:trigger es[i], es[j]} :: 0 <= i < j < |es| ==> Earlier(es[i], es[j], born))
  }

  lemma InsertSynced(dict: map<string, real>, es: seq<Entry>, e: Entry)
    requires Synced(dict, es) && e.val !in dict
    ensures Synced(dict[e.val := e.score], WithEntry(es, e))
  {
    var p, dict', es' := Place(es, e.score), dict[e.val := e.score], WithEntry(es, e);
    forall v | v in dict' ensures HasMember(es', v) {
      if v == e.val {
        assert es'[p].val == v;
      } else {
        assert HasMember(es, v);
        var i :| 0 <= i < |es| && es[i].val == v;
        assert es'[if i < p then i else i + 1].val == v;
      }
    }
    forall i | 0 <= i < |es'| ensures es'[i].val in dict' && dict'[es'[i].val] == es'[i].score {
      assert es'[i] == if i == p then e else es[if i < p then i else i - 1];
    }
    forall i, j | 0 <= i < j < |es'| ensures es'[i].val != es'[j].val {
      assert es'[i] == if i == p then e else es[if i < p then i else i - 1];
      assert es'[j] == if j == p then e else es[if j < p then j else j - 1];
    }
  }

  lemma WithoutSynced(dict: map<string, real>, es: seq<Entry>, t: nat)
    requires Synced(dict, es) && t < |es|
    ensures Synced(dict - {es[t].val}, Without(es, t))
  {
    var dict', es' := dict - {es[t].val}, Without(es, t);
    assert forall i {:trigger es'[i]} :: 0 <= i < |es'| ==> es'[i] == es[if i < t then i else i + 1];
    forall v | v in dict' ensures HasMember(es', v) {
      assert HasMember(es, v);
      var i :| 0 <= i < |es| && es[i].val == v;
      assert es'[if i < t then i else i - 1].val == v;
    }
  }

  lemma {:induction false} PlaceSplits(es: seq<Entry>, score: real, i: nat)
    requires i < |es| && (forall i, j {:trigger es[i], es[j]} :: 0 <= i < j < |es| ==> es[i].score <= es[j].score)
    ensures if i < Place(es, score) then es[i].score <= score else es[i].score > score
  {
    if es[0].score <= score && i > 0 {
      PlaceSplits(es[1..], score, i - 1);
    } else {
      assert es[0].score <= es[i].score || i == 0;
    }
  }

  lemma InsertChronological(es: seq<Entry>, e: Entry, born: map<string, nat>, clock: nat)
    requires Chronological(es, born) && (forall i {:trigger es[i]} :: 0 <= i < |es| ==> born[es[i].val] < clock)
    requires forall i {:trigger es[i]} :: 0 <= i < |es| ==> es[i].val != e.val
    ensures Chronological(WithEntry(es, e), born[e.val := clock])
  {
    var p, es', born' := Place(es, e.score), WithEntry(es, e), born[e.val := clock];
    forall i | 0 <= i < |es'| ensures es'[i].val in born' {
      assert es'[i] == if i == p then e else es[if i < p then i else i - 1];
    }
    forall i, j | 0 <= i < j < |es'| ensures Earlier(es'[i], es'[j], born') {
      assert es'[i] == if i == p then e else es[if i < p then i else i - 1];
      assert es'[j] == if j == p then e else es[if j < p then j else j - 1];
      if j == p {
        PlaceSplits(es, e.score, i);
      } else if i == p {
        PlaceSplits(es, e.score, j - 1);
      } else {
        assert Earlier(es[if i < p then i else i - 1], es[if j < p then j else j - 1], born);
      }
    }
  }

  lemma WithoutChronological(es: seq<Entry>, t: nat, born: map<string, nat>)
    requires Chronological(es, born) && t < |es|
    ensures Chronological(Without(es, t), born)
  {
    var es' := Without(es, t);
    assert forall i {:trigger es'[i]} :: 0 <= i < |es'| ==> es'[i] == es[if i < t then i else i + 1];
  }

  /** The list has an entry for the member with this score. */
  predicate HasPair(es: seq<Entry>, score: real, val: string) {
    exists i {:trigger es[i]} :: 0 <= i < |es| && es[i].score == score && es[i].val == val
  }

  predicate HasScore(dict: map<string, real>, es: seq<Entry>, v: string)
    requires v in dict
  {
    HasPair(es, dict[v], v)
  }

  /** Every member of the dictionary is in the list with its score. */
  ghost predicate Holds(dict: map<string, real>, es: seq<Entry>) {
    forall v {:trigger HasScore(dict, es, v)} :: v in dict ==> HasScore(dict, es, v)
  }

  lemma PairKept(es: seq<Entry>, e: Entry, es': seq<Entry>, score: real, val: string)
    requires AddedOne(es, e, es') && HasPair(es, score, val)
    ensures HasPair(es', score, val)
  {
    var q: nat :| q <= |es| && es' == es[..q] + [e] + es[q..]
      && (q > 0 ==> es[q - 1].score <= e.score) && (q < |es| ==> e.score <= es[q].score);
    var i :| 0 <= i < |es| && es[i].score == score && es[i].val == val;
    assert es'[if i < q then i else i + 1] == es[i];
  }

  lemma HoldsAdd(dict: map<string, real>, es: seq<Entry>, e: Entry, es': seq<Entry>)
    requires Holds(dict, es) && AddedOne(es, e, es')
    ensures Holds(dict[e.val := e.score], es') && |es'| == |es| + 1
  {
    var q: nat :| q <= |es| && es' == es[..q] + [e] + es[q..]
      && (q > 0 ==> es[q - 1].score <= e.score) && (q < |es| ==> e.score <= es[q].score);
    var dict' := dict[e.val := e.score];
    assert es'[q] == e;
    forall v | v in dict' ensures HasScore(dict', es', v) {
      if v != e.val {
        assert HasScore(dict, es, v);
        PairKept(es, e, es', dict[v], v);
      }
    }
  }

  lemma HoldsRemove(dict: map<string, real>, es: seq<Entry>, score: real, val: string, es': seq<Entry>)
    requires Holds(dict, es) && RemovedOne(es, score, val, es')
    ensures Holds(dict - {val}, es') && |es'| == |es| - 1
  {
    var q :| 0 <= q < |es| && es[q].score == score && es[q].val == val && es' == Without(es, q);
    var dict' := dict - {val};
    forall v | v in dict' ensures HasScore(dict', es', v) {
      assert HasScore(dict, es, v);
      var i :| 0 <= i < |es| && es[i].score == dict[v] && es[i].val == v;
      assert es'[if i < q then i else i - 1] == es[i];
    }
  }

  lemma SizeWithout(dict: map<string, real>, v: string)
    ensures |dict - {v}| == if v in dict then |dict| - 1 else |dict|
  {
    assert (dict - {v}).Keys == dict.Keys - {v};
    assert |dict| == |dict.Keys| && |dict - {v}| == |(dict - {v}).Keys|;
  }

  lemma SizeWith(dict: map<string, real>, v: string, x: real)
    requires v !in dict
    ensures |dict[v := x]| == |dict| + 1
  {
    assert dict[v := x].Keys == dict.Keys + {v};
    assert |dict| == |dict.Keys| && |dict[v := x]| == |dict[v := x].Keys|;
  }

  /** What every run keeps: the list holds every member of the dictionary with its score; it is longer by the members
      that deletions have missed, and without any such the two hold the same, by score and then by age. */
  ghost predicate Kept(dict: map<string, real>, es: seq<Entry>, born: map<string, nat>, clock: nat, misses: nat) {
    && Holds(dict, es) && |es| == |dict| + misses
    && (misses == 0 ==> Synced(dict, es) && Chronological(es, born))
    && (forall v {:trigger v in born} :: v in born ==> born[v] < clock)
  }

  /** A member new to the dictionary is new to the list, and keeps both in agreement and in order. */
  lemma Enters(dict: map<string, real>, es: seq<Entry>, born: map<string, nat>, clock: nat, e: Entry)
    requires Synced(dict, es) && Chronological(es, born) && e.val !in dict
    requires forall v {:trigger v in born} :: v in born ==> born[v] < clock
    ensures !HasPair(es, e.score, e.val)
    ensures Synced(dict[e.val := e.score], WithEntry(es, e)) && Chronological(WithEntry(es, e), born[e.val := clock])
  {
    InsertSynced(dict, es, e);
    InsertChronological(es, e, born, clock);
  }

  lemma KeptByInsert(dict: map<string, real>, es: seq<Entry>, born: map<string, nat>, clock: nat, misses: nat, e: Entry,
                     es': seq<Entry>)
    requires Kept(dict, es, born, clock, misses) && e.val !in dict && AddedOne(es, e, es')
    requires !HasPair(es, e.score, e.val) ==> es' == WithEntry(es, e)
    ensures Kept(dict[e.val := e.score], es', born[e.val := clock], clock + 1, misses)
    ensures misses == 0 ==> !HasPair(es, e.score, e.val)
  {
    HoldsAdd(dict, es, e, es');
    SizeWith(dict, e.val, e.score);
    if misses == 0 {
      Enters(dict, es, born, clock, e);
    }
  }

  /** A member that leaves dictionary and list keeps both in agreement and in order. */
  lemma Leaves(dict: map<string, real>, es: seq<Entry>, born: map<string, nat>, v: string, es': seq<Entry>)
    requires Synced(dict, es) && Chronological(es, born) && v in dict && RemovedOne(es, dict[v], v, es')
    ensures Synced(dict - {v}, es') && Chronological(es', born)
  {
    var q :| 0 <= q < |es| && es[q].score == dict[v] && es[q].val == v && es' == Without(es, q);
    WithoutSynced(dict, es, q);
    WithoutChronological(es, q, born);
  }

  lemma KeptByDelete(dict: map<string, real>, es: seq<Entry>, born: map<string, nat>, clock: nat, misses: nat,
                     v: string, es': seq<Entry>)
    requires Kept(dict, es, born, clock, misses) && v in dict
    ensures Kept(dict - {v}, es, born, clock, misses + 1)
    ensures RemovedOne(es, dict[v], v, es') ==> Kept(dict - {v}, es', born, clock, misses)
  {
    SizeWithout(dict, v);
    var dict' := dict - {v};
    forall u | u in dict' ensures HasScore(dict', es, u) {
      assert HasScore(dict, es, u);
    }
    if RemovedOne(es, dict[v], v, es') {
      HoldsRemove(dict, es, dict[v], v, es');
      if misses == 0 {
        Leaves(dict, es, born, v, es');
      }
    }
  }

  /** The list has as many members as the dictionary. */
  lemma {:induction false} SyncedSize(dict: map<string, real>, es: seq<Entry>)
    requires Synced(dict, es)
    ensures |dict| == |es|
    decreases |es|
  {
    if es == [] {
      assert forall v :: v in dict ==> HasMember(es, v);
      assert dict.Keys == {};
    } else {
      WithoutSynced(dict, es, |es| - 1);
      SyncedSize(dict - {es[|es| - 1].val}, Without(es, |es| - 1));
      assert (dict - {es[|es| - 1].val}).Keys == dict.Keys - {es[|es| - 1].val};
    }
  }

  /** Dictionary and list agree exactly when no deletion has missed. */
  lemma AgreeIffNoMiss(dict: map<string, real>, es: seq<Entry>, born: map<string, nat>, clock: nat, misses: nat)
    requires Kept(dict, es, born, clock, misses)
    ensures Synced(dict, es) <==> misses == 0
  {
    if Synced(dict, es) {
      SyncedSize(dict, es);
    }
  }

  lemma TieFreeIsRankable(ns: seq<Node>, score: real, v: string, t: nat)
    requires Sorted(ns) && 0 < t < |ns|
    ensures Target(ns, t, score, v) && TieFree(ns, t) ==> Rankable(ns, score, v, t)
  {
    forall k | t < k < |ns| && ns[k].score <= score && Target(ns, t, score, v) && TieFree(ns, t)
      ensures ns[k].height <= ns[t].height
    {
      assert ns[t].score <= ns[k].score;
    }
  }

  lemma NoRankNoFind(ns: seq<Node>, score: real, val: string)
    requires |ns| > 0 && Sorted(ns) && forall t :: !Rankable(ns, score, val, t)
    ensures forall t :: !Findable(Entries(ns), score, val, t)
  {
    forall t | 0 <= t < |ns| - 1 ensures !Findable(Entries(ns), score, val, t) {
      FindableTarget(ns, score, val, t + 1);
      TieFreeIsRankable(ns, score, val, t + 1);
    }
  }

  lemma RankMeansFind(dict: map<string, real>, ns: seq<Node>, v: string, rank: nat)
    requires |ns| > 0 && Synced(dict, Entries(ns)) && v in dict && Sorted(ns) && Rankable(ns, dict[v], v, rank)
    ensures Findable(Entries(ns), dict[v], v, rank - 1)
  {
    assert Entries(ns)[rank - 1] == EntryOf(ns[rank]);
    FindableTarget(ns, dict[v], v, rank);
  }

  lemma TwinIsPair(ns: seq<Node>, score: real, val: string)
    requires |ns| > 0
    ensures NoTwin(ns, score, val) <==> !HasPair(Entries(ns), score, val)
  {
    var es := Entries(ns);
    if HasPair(es, score, val) {
      var i :| 0 <= i < |es| && es[i].score == score && es[i].val == val;
      assert es[i] == EntryOf(ns[i + 1]);
    } else {
      forall i | 0 < i < |ns| ensures ns[i].score != score || ns[i].val != val {
        assert es[i - 1] == EntryOf(ns[i]);
      }
    }
  }

  lemma MemberOfDict(dict: map<string, real>, es: seq<Entry>, val: string)
    requires Synced(dict, es)
    ensures val in dict <==> HasMember(es, val)
  {
    assert val in dict ==> HasMember(es, val);
  }

  /** One entry for this member with this score is gone, and another has come in. */
  predicate MovedOne(es: seq<Entry>, score: real, val: string, e: Entry, es': seq<Entry>) {
    exists q {:trigger es[q]} ::
      0 <= q < |es| && es[q].score == score && es[q].val == val && AddedOne(Without(es, q), e, es')
  }

  /** MovedOne, with the new entry behind all of its score. */
  predicate MovedExactly(es: seq<Entry>, score: real, val: string, e: Entry, es': seq<Entry>) {
    exists q {:trigger es[q]} ::
      0 <= q < |es| && es[q].score == score && es[q].val == val && es' == WithEntry(Without(es, q), e)
  }

  lemma Moves(es: seq<Entry>, score: real, val: string, e: Entry, mid: seq<Entry>, es': seq<Entry>)
    requires RemovedOne(es, score, val, mid)
    ensures AddedOne(mid, e, es') ==> MovedOne(es, score, val, e, es')
    ensures es' == WithEntry(mid, e) ==> MovedExactly(es, score, val, e, es')
  {
    var q :| 0 <= q < |es| && es[q].score == score && es[q].val == val && mid == Without(es, q);
    assert es[q] == es[q];
  }

  lemma RemoveThenSet(m: map<string, real>, k: string, v: real)
    ensures (m - {k})[k := v] == m[k := v]
  {
  }

  /** Positions f to g are exactly the members with a score between the bounds. */
  predicate Run(ns: seq<Node>, lo: real, hi: real, f: int, g: int) {
    && 0 < f <= g < |ns|
    && (forall k {:trigger ns[k].score} :: 0 < k < |ns| ==> (f <= k <= g <==> lo <= ns[k].score <= hi))
  }

  /** The pair of nodes delimits the members with a score between the bounds. */
  ghost predicate Delimit(ns: seq<Node>, lo: real, hi: real, first: Node?, last: Node?) {
    || (first == last == null && NoneIn(ns, lo, hi))
    || (exists f, g :: Run(ns, lo, hi, f, g) && first == ns[f] && last == ns[g])
  }

  lemma FirstToLast(ns: seq<Node>, lo: real, hi: real, f: int, g: int)
    requires Sorted(ns) && FirstIn(ns, lo, hi, f) && LastIn(ns, lo, hi, g)
    ensures Run(ns, lo, hi, f, g)
  {
  }

  /** The old entry of a member whose score changes can be found. */
  ghost predicate MoveFinds(dict: map<string, real>, es: seq<Entry>, data: string, score: real) {
    data in dict && dict[data] != score ==> exists t :: Findable(es, dict[data], data, t)
  }

  /** What becomes of the list when a member gets a score. */
  ghost predicate ListUpdates(dict: map<string, real>, misses: nat, es: seq<Entry>, e: Entry, es': seq<Entry>) {
    && (e.val in dict && dict[e.val] == e.score ==> es' == es)
    && (e.val !in dict || !MoveFinds(dict, es, e.val, e.score) ==> AddedOne(es, e, es'))
    && (e.val in dict && dict[e.val] != e.score && MoveFinds(dict, es, e.val, e.score) ==>
          MovedOne(es, dict[e.val], e.val, e, es') && (misses == 0 ==> MovedExactly(es, dict[e.val], e.val, e, es')))
    && (e.val !in dict && misses == 0 ==> es' == WithEntry(es, e))
  }

  /** What becomes of the list when a member is deleted. */
  ghost predicate ListDeletes(dict: map<string, real>, es: seq<Entry>, data: string, es': seq<Entry>)
    requires data in dict
  {
    if exists t :: Findable(es, dict[data], data, t) then RemovedOne(es, dict[data], data, es') else es' == es
  }

  lemma ListMoves(dict: map<string, real>, misses: nat, es: seq<Entry>, e: Entry, mid: seq<Entry>, es': seq<Entry>)
    requires e.val in dict && dict[e.val] != e.score && ListDeletes(dict, es, e.val, mid)
    requires AddedOne(mid, e, es') && (misses == 0 ==> es' == WithEntry(mid, e))
    ensures ListUpdates(dict, misses, es, e, es')
  {
    if exists t :: Findable(es, dict[e.val], e.val, t) {
      Moves(es, dict[e.val], e.val, e, mid, es');
    }
  }

  class SortSet {
    const sl: SkipList
    var dict: map<string, real>
    ghost var born: map<string, nat>
    ghost var clock: nat
    ghost var misses: nat  // how many members have left the dictionary and stayed in the list

    /** The list, as the sequence of its entries. */
    ghost function List(): seq<Entry>
      requires |sl.order| > 0
      reads sl`order
    {
      Entries(sl.order)
    }

    ghost predicate Valid()
      reads this, sl, sl.repr
    {
      sl.Valid() && Kept(dict, List(), born, clock, misses)
    }

    constructor ()
      ensures Valid() && fresh(sl) && fresh(sl.repr) && dict == map[] && List() == [] && misses == 0
    {
      sl := new SkipList();
      dict, born, clock, misses := map[], map[], 0, 0;
    }

    /** The list search arrives at the member. */
    ghost predicate CanFind(data: string)
      requires |sl.order| > 0 && data in dict
      reads this`dict, sl`order
    {
      exists t :: Findable(List(), dict[data], data, t)
    }

    /** Adds a member unless the dictionary has it. */
    method Insert(key: real, data: string, lvl: nat) returns (ok: bool)
      requires Valid() && 1 <= lvl <= MAXLEVEL
      modifies this, sl, sl.repr
      ensures Valid() && fresh(sl.repr - old(sl.repr)) && misses == old(misses)
      ensures ok <==> data !in old(dict)
      ensures dict == if ok then old(dict)[data := key] else old(dict)
      ensures !ok ==> List() == old(List())
      ensures ok ==> AddedOne(old(List()), Entry(key, data, lvl), List())
      ensures ok && !HasPair(old(List()), key, data) ==> List() == WithEntry(old(List()), Entry(key, data, lvl))
      ensures ok && misses == 0 ==> !HasPair(old(List()), key, data)
    {
      if data in dict {
        return false;
      }
      ghost var es := List();
      TwinIsPair(sl.order, key, data);
      sl.Insert(key, data, lvl);
      KeptByInsert(dict, es, born, clock, misses, Entry(key, data, lvl), List());
      dict, born, clock := dict[data := key], born[data := clock], clock + 1;
      return true;
    }

    /** Removes a member from the dictionary, and from the list if the list search arrives at it. */
    method DelMem(data: string) returns (ok: bool)
      requires Valid()
      modifies this, sl, sl.repr
      ensures Valid() && ok == (data in old(dict)) && dict == old(dict) - {data} && sl.repr == old(sl.repr)
      ensures if ok then ListDeletes(old(dict), old(List()), data, List())
        else unchanged(this) && unchanged(sl) && unchanged(sl.repr)
      ensures misses == old(misses) + if ok && !old(CanFind(data)) then 1 else 0
    {
      if data !in dict {
        assert dict - {data} == dict;
        return false;
      }
      ghost var es := List();
      var code := sl.Delete(dict[data], data);
      KeptByDelete(dict, es, born, clock, misses, data, List());
      if code != 0 {
        misses := misses + 1;
      }
      dict := dict - {data};
      return true;
    }

    /** The old entry of a member whose score changes can be found. */
    ghost predicate CanMove(data: string, score: real)
      requires |sl.order| > 0
      reads this`dict, sl`order
    {
      MoveFinds(dict, List(), data, score)
    }

    /** Gives a member a score, adding it if it is absent. A member whose old entry cannot be found stays in the list
        beside the new one. */
    method Update(score: real, data: string, lvl: nat) returns (ok: bool)
      requires Valid() && 1 <= lvl <= MAXLEVEL
      modifies this, sl, sl.repr
      ensures Valid() && ok && dict == old(dict)[data := score] && fresh(sl.repr - old(sl.repr))
      ensures misses == old(misses) + if old(CanMove(data, score)) then 0 else 1
      ensures ListUpdates(old(dict), misses, old(List()), Entry(score, data, lvl), List())
    {
      if data !in dict {
        ok := Insert(score, data, lvl);
      } else if dict[data] != score {
        RemoveThenSet(dict, data, score);
        ghost var es, e := List(), Entry(score, data, lvl);
        var _ := DelMem(data);
        ghost var mid := List();
        ok := Insert(score, data, lvl);
        ListMoves(old(dict), misses, es, e, mid, List());
      } else {
        ok := true;
        assert dict == old(dict)[data := score];
      }
    }

    method GetMemScore(data: string) returns (ok: bool, score: real)
      requires Valid()
      ensures ok <==> data in dict
      ensures ok ==> score == dict[data] && HasPair(List(), score, data)
      ensures misses == 0 ==> (ok <==> HasMember(List(), data))
    {
      ok := data in dict;
      score := if ok then dict[data] else 0.0;
      assert ok ==> HasScore(dict, List(), data);
      if misses == 0 {
        MemberOfDict(dict, List(), data);
      }
    }

    /** The rank of a member: the first position at which the search meets it, or 0. */
    method GetMemRank(data: string) returns (ok: bool, rank: nat)
      requires Valid()
      ensures ok <==> data in dict
      ensures ok && rank > 0 ==> FirstRankable(sl.order, dict[data], data, rank)
      ensures ok && rank == 0 ==> forall t :: !Rankable(sl.order, dict[data], data, t)
      ensures ok && rank > 0 && misses == 0 ==> Findable(List(), dict[data], data, rank - 1)
      ensures ok && rank == 0 ==> !CanFind(data)
    {
      if data !in dict {
        return false, 0;
      }
      ok := true;
      rank := sl.GetRank(dict[data], data);
      if rank == 0 {
        NoRankNoFind(sl.order, dict[data], data);
      } else if misses == 0 {
        RankMeansFind(dict, sl.order, data, rank);
      }
    }

    /** The pair delimits exactly the run of members with a score in the range, or both ends are end and there is none;
        except when the range lies below the first score and reaches the head's own. */
    method GetMemsByScore(min: real, max: real) returns (first: Node?, last: Node?)
      requires Valid() && |sl.order| > 1
      ensures Delimit(sl.order, Low(min, max), High(min, max), first, last)
        <==> !(Low(min, max) <= -1.0 && High(min, max) < sl.order[1].score)
      ensures Low(min, max) <= -1.0 && High(min, max) < sl.order[1].score ==> first == null && last == sl.head
    {
      first := sl.FirstInRangeByScore(min, max);
      last := sl.LastInRangeByScore(min, max);
      ghost var lo, hi := Low(min, max), High(min, max);
      if first != null {
        ghost var f :| FirstIn(sl.order, lo, hi, f) && first == sl.order[f];
        assert last != null && last != sl.head;
        ghost var g :| LastIn(sl.order, lo, hi, g) && last == sl.order[g];
        FirstToLast(sl.order, lo, hi, f, g);
      }
    }

    method GetMemsFirstByRank(min: nat, max: nat) returns (it: Node?)
      requires Valid() && |sl.order| > 1
      ensures |sl.order| == |dict| + misses + 1
      ensures 1 <= min <= max ==> it == if min <= |dict| + misses then sl.order[min] else null
    {
      it := sl.FirstInRangeByIdx(min, max);
    }

    method GetMemByRank(rank: nat) returns (it: Node?)
      requires Valid() && |sl.order| > 1
      ensures rank >= 1 ==> it == if rank <= |dict| + misses then sl.order[rank] else null
    {
      it := GetMemsFirstByRank(rank, rank);
    }
  }

  /** A range below all scores that reaches the head's own is answered with the head for its last member. */
  method HeadForLast() returns (s: SortSet, first: Node?, last: Node?)
    ensures first == null && last != null && last == s.sl.head
  {
    s := new SortSet();
    var _ := s.Insert(5.0, "a", 1);
    assert s.List() == WithEntry([], Entry(5.0, "a", 1)) == [Entry(5.0, "a", 1)];
    assert s.sl.order[1].score == s.List()[0].score;
    first, last := s.GetMemsByScore(-2.0, 0.0);
  }

  lemma LastAgrees(dict: map<string, real>, born: map<string, nat>, a: seq<Entry>, b: seq<Entry>)
    requires Synced(dict, a) && Chronological(a, born) && Synced(dict, b) && Chronological(b, born)
    requires |a| == |b| > 0
    ensures var n := |a| - 1; a[n].val == b[n].val && a[n].score == b[n].score
  {
    var n := |a| - 1;
    assert HasMember(b, a[n].val);
    var j :| 0 <= j < |b| && b[j].val == a[n].val;
    assert HasMember(a, b[n].val);
    var k :| 0 <= k < |a| && a[k].val == b[n].val;
    assert k == n || Earlier(a[k], a[n], born);
    assert j == n || Earlier(b[j], b[n], born);
  }

  /** The order is the only one: dictionary and insertion times determine the sequence of scores and members. */
  lemma {:induction false} OrderDetermined(dict: map<string, real>, born: map<string, nat>, a: seq<Entry>,
                                           b: seq<Entry>)
    requires Synced(dict, a) && Chronological(a, born) && Synced(dict, b) && Chronological(b, born)
    ensures |a| == |b|
    ensures forall i {:trigger a[i]} {:trigger b[i]} :: 0 <= i < |a| ==>
      a[i].val == b[i].val && a[i].score == b[i].score
    decreases |a|
  {
    SyncedSize(dict, a);
    SyncedSize(dict, b);
    if a != [] {
      var n := |a| - 1;
      LastAgrees(dict, born, a, b);
      WithoutSynced(dict, a, n);
      WithoutSynced(dict, b, n);
      WithoutChronological(a, n, born);
      WithoutChronological(b, n, born);
      assert Without(a, n) == a[..n] && Without(b, n) == b[..n];
      OrderDetermined(dict - {a[n].val}, born, a[..n], b[..n]);
      forall i | 0 <= i < |a| ensures a[i].val == b[i].val && a[i].score == b[i].score {
        if i < n {
          assert a[..n][i] == a[i] && b[..n][i] == b[i];
        }
      }
    }
  }

  /** A concrete tie: of two members with one score, the later and taller hides the earlier one. */
  lemma HiddenByTallerTie()
    ensures var es := [Entry(1.0, "a", 1), Entry(1.0, "b", 2)];
      && Synced(map["a" := 1.0, "b" := 1.0], es)
      && (forall t :: !Findable(es, 1.0, "a", t))
      && Findable(es, 1.0, "b", 1)
      && es == WithEntry(WithEntry([], es[0]), es[1])
  {
    var es := [Entry(1.0, "a", 1), Entry(1.0, "b", 2)];
    assert es[0].val == "a" && es[1].val == "b" && "a"[0] != "b"[0];
    forall t ensures !Findable(es, 1.0, "a", t) {
      assert es[1].height > es[0].height;
    }
    PlaceIs([es[0]], 1.0, 1);
  }

  /** With distinct scores every member can be found. */
  lemma DistinctScoresFindable(dict: map<string, real>, es: seq<Entry>, v: string) returns (t: nat)
    requires Synced(dict, es) && v in dict
    requires forall i, j {:trigger es[i].score, es[j].score} :: 0 <= i < j < |es| ==> es[i].score != es[j].score
    ensures Findable(es, dict[v], v, t)
  {
    assert HasMember(es, v);
    t :| 0 <= t < |es| && es[t].val == v;
  }
}
