/**
  The skip list with spans: an ordered list of members in which every node also links ahead on some
  higher levels, and every link records how many positions it spans.
 */
module SkipLists {
  const MAXLEVEL: nat := 32

  datatype Link = Link(forward: Node?, span: int)

  class Node {
    const score: real
    const val: string
    const height: nat
    var level: seq<Link>
    var backward: Node?

    function At(l: nat): Link
      reads this`level
    {
      if l < |level| then level[l] else Link(null, 0)
    }

    constructor (height: nat, score: real, val: string)
      ensures this.height == height && this.score == score && this.val == val
      ensures |level| == height && backward == null
      ensures forall l :: 0 <= l < height ==> level[l] == Link(null, 0)
    {
      this.height, this.score, this.val := height, score, val;
      level := seq(height, _ => Link(null, 0));
      backward := null;
    }
  }

  /** No node of the stretch strictly between two positions reaches level l. */
  predicate Below(ns: seq<Node>, lo: int, hi: int, l: int) {
    forall k {:trigger ns[k].height} :: 0 <= k < |ns| && lo < k < hi ==> ns[k].height <= l
  }

  /** The level-l link out of position i leads to the next node that reaches level l, and its span is
      the difference of the two positions; at the end it is NULL (and its span is arbitrary). */
  predicate LinkOk(ns: seq<Node>, i: int, l: int, link: Link) {
    if link.forward == null then 0 <= i < |ns| && Below(ns, i, |ns|, l)
    else
      var j := i + link.span;
      0 <= i < j < |ns| && ns[j] == link.forward && ns[j].height > l && Below(ns, i, j, l)
  }

  ghost predicate LevelOk(ns: seq<Node>, l: nat)
    reads ns`level
  {
    forall i {:trigger LinkOk(ns, i, l, ns[i].At(l))} :: 0 <= i < |ns| && ns[i].height > l ==>
      LinkOk(ns, i, l, ns[i].At(l))
  }

  predicate Distinct(ns: seq<Node>) {
    forall i, j :: 0 <= i < j < |ns| ==> ns[i] != ns[j]
  }

  function Inserted(ns: seq<Node>, r: nat, x: Node): seq<Node>
    requires r < |ns|
  {
    ns[..r + 1] + [x] + ns[r + 1..]
  }

  /** A link that does not cross the insertion point is right for the longer list as it stands. */
  lemma LinkBefore(ns: seq<Node>, r: nat, x: Node, i: nat, l: nat, link: Link)
    requires r < |ns| && LinkOk(ns, i, l, link) && link.forward != null && i + link.span <= r
    ensures LinkOk(Inserted(ns, r, x), i, l, link)
  {
    var ns' := Inserted(ns, r, x);
    assert forall k :: 0 <= k <= r ==> ns'[k] == ns[k];
  }

  lemma LinkAfter(ns: seq<Node>, r: nat, x: Node, i: nat, l: nat, link: Link)
    requires r < i < |ns| && LinkOk(ns, i, l, link)
    ensures LinkOk(Inserted(ns, r, x), i + 1, l, link)
  {
    var ns' := Inserted(ns, r, x);
    assert forall k :: r + 1 < k < |ns'| ==> ns'[k] == ns[k - 1];
  }

  /** The link out of the new node, cut from the link that used to cross the insertion point. */
  lemma LinkFromNew(ns: seq<Node>, r: nat, x: Node, pu: nat, l: nat, link: Link)
    requires pu <= r < |ns| && LinkOk(ns, pu, l, link) && Below(ns, pu, r + 1, l)
    ensures LinkOk(Inserted(ns, r, x), r + 1, l, Link(link.forward, link.span - (r - pu)))
  {
    var ns' := Inserted(ns, r, x);
    assert forall k :: r + 1 < k < |ns'| ==> ns'[k] == ns[k - 1];
    assert link.forward != null ==> pu + link.span > r;
  }

  lemma LinkToNew(ns: seq<Node>, r: nat, x: Node, pu: nat, l: nat)
    requires pu <= r < |ns| && Below(ns, pu, r + 1, l) && x.height > l
    ensures LinkOk(Inserted(ns, r, x), pu, l, Link(x, r - pu + 1))
  {
    var ns' := Inserted(ns, r, x);
    assert forall k :: 0 <= k <= r ==> ns'[k] == ns[k];
  }

  ghost predicate Sized(ns: seq<Node>)
    reads ns`level
  {
    forall i {:trigger ns[i].level} :: 0 <= i < |ns| ==> |ns[i].level| == ns[i].height
  }

  /** The list as a whole: the head first, then the members by non-decreasing score. */
  predicate Shape(ns: seq<Node>, levels: nat) {
    && |ns| > 0 && Distinct(ns) && ns[0].height == MAXLEVEL && 1 <= levels <= MAXLEVEL
    && (forall i {:trigger ns[i].height} :: 0 < i < |ns| ==> 1 <= ns[i].height <= levels)
  }

  /** Some member has this height. */
  predicate Reached(ns: seq<Node>, levels: nat) {
    exists i {:trigger ns[i].height} :: 0 < i < |ns| && ns[i].height == levels
  }

  predicate Sorted(ns: seq<Node>) {
    forall i, j {:trigger ns[i].score, ns[j].score} :: 0 < i < j < |ns| ==> ns[i].score <= ns[j].score
  }

  ghost predicate Levels(ns: seq<Node>)
    reads ns`level
  {
    forall l {:trigger LevelOk(ns, l)} :: 0 <= l < MAXLEVEL ==> LevelOk(ns, l)
  }

  /** backward mirrors level 0. */
  ghost predicate Mirror(ns: seq<Node>)
    reads ns`backward
  {
    forall i {:trigger ns[i].backward} :: 0 < i < |ns| ==> ns[i].backward == if i == 1 then null else ns[i - 1]
  }

  /** Between positions from and p every node that reaches level l satisfies keep, and the walk stops at p
      because the next link is NULL or leads to a node that does not. */
  ghost predicate Stopped(ns: seq<Node>, keep: Node -> bool, from: int, p: int, u: Node, l: nat)
    reads u`level
  {
    && 0 <= from <= p < |ns| && ns[p] == u && u.height > l
    && (forall k {:trigger ns[k].height} :: from < k <= p && ns[k].height > l ==> keep(ns[k]))
    && (u.At(l).forward != null ==> !keep(u.At(l).forward))
  }

  /** Where the walk on level l starts: where the walk on the level above stopped. */
  function From(ranks: seq<nat>, l: nat): nat {
    if l + 1 < |ranks| then ranks[l + 1] else 0
  }

  /** The result of a whole descent. */
  ghost predicate Descended(ns: seq<Node>, keep: Node -> bool, update: seq<Node>, ranks: seq<nat>)
    reads update`level
  {
    && |update| == |ranks| > 0
    && (forall l {:trigger update[l]} :: 0 <= l < |update|
          ==> Stopped(ns, keep, From(ranks, l), ranks[l], update[l], l))
  }

  predicate Monotone(ns: seq<Node>, keep: Node -> bool) {
    forall i, j {:trigger keep(ns[i]), keep(ns[j])} :: 0 < i < j < |ns| && keep(ns[j]) ==> keep(ns[i])
  }

  /** Position r separates the members that satisfy keep from the others. */
  predicate Cut(ns: seq<Node>, keep: Node -> bool, r: int) {
    && 0 <= r < |ns|
    && (forall k {:trigger keep(ns[k])} :: 0 < k < |ns| ==> (keep(ns[k]) <==> k <= r))
  }

  lemma {:induction false} StopKept(ns: seq<Node>, keep: Node -> bool, update: seq<Node>, ranks: seq<nat>, l: nat)
    requires Descended(ns, keep, update, ranks) && l < |ranks|
    ensures 0 <= ranks[l] < |ns| && (ranks[l] == 0 || keep(ns[ranks[l]]))
    decreases |ranks| - l
  {
    var p := ranks[l];
    assert Stopped(ns, keep, From(ranks, l), p, update[l], l);
    if p == From(ranks, l) {
      if l + 1 < |ranks| {
        StopKept(ns, keep, update, ranks, l + 1);
      }
    } else {
      assert ns[p].height > l;
    }
  }

  /** Past the stop on level l, no node that reaches level l satisfies a monotone keep. */
  lemma NoneLater(ns: seq<Node>, keep: Node -> bool, p: nat, l: nat, link: Link, k: nat)
    requires LinkOk(ns, p, l, link) && (link.forward != null ==> !keep(link.forward))
    requires Monotone(ns, keep) && p < k < |ns|
    ensures ns[k].height > l ==> !keep(ns[k])
  {
    if link.forward != null && p + link.span < k {
      assert !keep(ns[p + link.span]);
    }
  }

  /** A descent by a monotone condition ends at the cut. */
  lemma DescentFindsCut(ns: seq<Node>, keep: Node -> bool, update: seq<Node>, ranks: seq<nat>)
    requires Levels(ns) && Descended(ns, keep, update, ranks) && Monotone(ns, keep)
    requires forall i {:trigger ns[i].height} :: 0 <= i < |ns| ==> ns[i].height > 0
    ensures Cut(ns, keep, ranks[0])
  {
    var r := ranks[0];
    assert LevelOk(ns, 0) && Stopped(ns, keep, From(ranks, 0), r, update[0], 0);
    assert LinkOk(ns, r, 0, update[0].At(0));
    StopKept(ns, keep, update, ranks, 0);
    forall k | 0 < k < |ns| ensures keep(ns[k]) <==> k <= r {
      if k > r {
        assert ns[k].height > 0;
        NoneLater(ns, keep, r, 0, update[0].At(0), k);
      } else if k < r {
        assert keep(ns[r]) ==> keep(ns[k]);
      }
    }
  }

  lemma {:induction false} RanksFall(ns: seq<Node>, keep: Node -> bool, update: seq<Node>, ranks: seq<nat>, l: nat)
    requires Descended(ns, keep, update, ranks) && l < |ranks|
    ensures ranks[l] <= ranks[0]
  {
    if l > 0 {
      RanksFall(ns, keep, update, ranks, l - 1);
      assert Stopped(ns, keep, From(ranks, l - 1), ranks[l - 1], update[l - 1], l - 1);
    }
  }

  /** From the stop on level l, the walks on lower levels do not pass the node at which level l stopped, nor any other
      that reaches level l. */
  lemma {:induction false} NotPassedBelow(ns: seq<Node>, keep: Node -> bool, update: seq<Node>, ranks: seq<nat>, l: nat,
                                          m: nat, k: nat)
    requires LevelOk(ns, l) && Descended(ns, keep, update, ranks) && m <= l < |ranks|
    requires ranks[l] < k < |ns| && ns[k].height > l
    ensures ranks[l] <= ranks[m] < k
    decreases l - m
  {
    var p, u := ranks[l], update[l];
    assert Stopped(ns, keep, From(ranks, l), p, u, l);
    assert LinkOk(ns, p, l, u.At(l));
    if m < l {
      NotPassedBelow(ns, keep, update, ranks, l, m + 1, k);
      var q := p + u.At(l).span;
      NotPassedBelow(ns, keep, update, ranks, l, m + 1, q);
      assert Stopped(ns, keep, From(ranks, m), ranks[m], update[m], m);
      assert !keep(ns[q]) && ns[q].height > m;
    }
  }

  /** update and ranks hold, for each level, the last node at or before position r that reaches it. */
  predicate Path(ns: seq<Node>, r: int, update: seq<Node>, ranks: seq<nat>) {
    && |update| == |ranks| && 0 <= r < |ns|
    && (forall l {:trigger update[l]} :: 0 <= l < |update| ==>
          ranks[l] <= r && ns[ranks[l]] == update[l] && update[l].height > l && Below(ns, ranks[l], r + 1, l))
  }

  /** The stop on each level is the last node before the final one that reaches the level, whatever the condition. */
  lemma DescentPath(ns: seq<Node>, keep: Node -> bool, update: seq<Node>, ranks: seq<nat>)
    requires Levels(ns) && Descended(ns, keep, update, ranks) && |ranks| <= MAXLEVEL
    ensures Path(ns, ranks[0], update, ranks)
  {
    var r := ranks[0];
    assert Stopped(ns, keep, From(ranks, 0), r, update[0], 0);
    forall l | 0 <= l < |update|
      ensures ranks[l] <= r && ns[ranks[l]] == update[l] && update[l].height > l && Below(ns, ranks[l], r + 1, l)
    {
      assert LevelOk(ns, l) && Stopped(ns, keep, From(ranks, l), ranks[l], update[l], l);
      RanksFall(ns, keep, update, ranks, l);
      forall k | 0 <= k < |ns| && ranks[l] < k < r + 1 ensures ns[k].height <= l {
        if ns[k].height > l {
          NotPassedBelow(ns, keep, update, ranks, l, 0, k);
        }
      }
    }
  }

  /** Levels above the tallest node extend a path by the head. */
  lemma PathOpens(ns: seq<Node>, top: nat, r: int, update: seq<Node>, ranks: seq<nat>, update': seq<Node>,
                  ranks': seq<nat>)
    requires Shape(ns, top) && |update| == top && Path(ns, r, update, ranks)
    requires update <= update' && ranks <= ranks' && |update'| == |ranks'| <= MAXLEVEL
    requires forall l {:trigger update'[l]} :: top <= l < |update'| ==> update'[l] == ns[0] && ranks'[l] == 0
    ensures Path(ns, r, update', ranks')
  {
    forall l | 0 <= l < |update'|
      ensures ranks'[l] <= r && ns[ranks'[l]] == update'[l] && update'[l].height > l && Below(ns, ranks'[l], r + 1, l)
    {
      if l < top {
        assert update'[..top] == update && ranks'[..top] == ranks;
        assert update'[l] == update[l] && ranks'[l] == ranks[l];
      } else {
        assert update'[l] == ns[0] && ranks'[l] == 0;
        assert Below(ns, 0, r + 1, l);
      }
    }
  }

  /** No node holds this member with this score. */
  predicate NoTwin(ns: seq<Node>, score: real, val: string) {
    forall i {:trigger ns[i].val} :: 0 < i < |ns| ==> ns[i].score != score || ns[i].val != val
  }

  /** The condition under which the searches of Insert and Delete move on. */
  function InsertKeep(score: real, val: string): Node -> bool {
    (n: Node) => n.score < score || (n.score == score && n.val != val)
  }

  /** The position before the insertion of the node now at position i. */
  function OldPos(r: nat, i: nat): nat {
    if i <= r then i else i - 1
  }

  lemma InsertedReaches(ns: seq<Node>, r: nat, x: Node, levels: nat)
    requires r < |ns|
    ensures Reached(ns, levels) || x.height == levels ==> Reached(Inserted(ns, r, x), levels)
  {
    var ns' := Inserted(ns, r, x);
    assert ns'[r + 1] == x;
    if i :| 0 < i < |ns| && ns[i].height == levels {
      assert ns'[if i <= r then i else i + 1] == ns[i];
    }
  }

  lemma InsertedShape(ns: seq<Node>, levels: nat, r: nat, x: Node)
    requires Shape(ns, levels) && r < |ns| && x !in ns && 1 <= x.height <= levels
    ensures Shape(Inserted(ns, r, x), levels)
  {
    var ns' := Inserted(ns, r, x);
    assert ns'[r + 1] == x;
    assert forall k {:trigger ns'[k]} :: 0 <= k < |ns'| && k != r + 1 ==> ns'[k] == ns[OldPos(r, k)];
  }

  lemma CutByScore(ns: seq<Node>, score: real, val: string, r: nat, k: nat)
    requires NoTwin(ns, score, val) && Cut(ns, InsertKeep(score, val), r) && 0 < k < |ns|
    ensures if k <= r then ns[k].score <= score else ns[k].score > score
  {
    assert InsertKeep(score, val)(ns[k]) <==> k <= r;
    assert ns[k].val != val || ns[k].score != score;
  }

  lemma InsertedWithin(ns: seq<Node>, r: nat, x: Node, repr: set<Node>)
    requires r < |ns| && forall i {:trigger ns[i]} :: 0 <= i < |ns| ==> ns[i] in repr
    ensures var ns' := Inserted(ns, r, x);
      ns'[0] == ns[0] && forall i {:trigger ns'[i]} :: 0 <= i < |ns'| ==> ns'[i] in repr + {x}
  {
    var ns' := Inserted(ns, r, x);
    assert forall k {:trigger ns'[k]} :: 0 <= k < |ns'| ==> ns'[k] == if k == r + 1 then x else ns[OldPos(r, k)];
  }

  /** Position r is behind smaller or equal scores and in front of larger or equal ones. */
  predicate Fits(ns: seq<Node>, r: int, score: real) {
    0 <= r < |ns| && (r > 0 ==> ns[r].score <= score) && (r + 1 < |ns| ==> score <= ns[r + 1].score)
  }

  lemma InsertedSorted(ns: seq<Node>, r: nat, x: Node)
    requires Sorted(ns) && Fits(ns, r, x.score)
    ensures Sorted(Inserted(ns, r, x))
  {
    var ns' := Inserted(ns, r, x);
    forall i, j | 0 < i < j < |ns'| ensures ns'[i].score <= ns'[j].score {
      if i == r + 1 {
        assert ns'[j] == ns[j - 1] && ns[r + 1].score <= ns[j - 1].score;
      } else if j == r + 1 {
        assert ns'[i] == ns[i] && ns[i].score <= ns[r].score;
      } else {
        assert ns'[i] == ns[OldPos(r, i)] && ns'[j] == ns[OldPos(r, j)];
      }
    }
  }

  /** On level 0 every link leads to the very next node. */
  lemma NextNode(ns: seq<Node>, i: nat)
    requires i < |ns| && LevelOk(ns, 0) && (forall k {:trigger ns[k].height} :: 0 <= k < |ns| ==> ns[k].height > 0)
    ensures ns[i].At(0).forward == (if i + 1 < |ns| then ns[i + 1] else null)
    ensures i + 1 < |ns| ==> ns[i].At(0).span == 1
  {
    assert ns[i].height > 0;
    assert LinkOk(ns, i, 0, ns[i].At(0));
    if i + 1 < |ns| {
      assert ns[i + 1].height > 0;
    }
  }

  /** A descent by the condition of Insert ends in a fitting place. */
  lemma DescentFits(ns: seq<Node>, score: real, val: string, update: seq<Node>, ranks: seq<nat>)
    requires Levels(ns) && Descended(ns, InsertKeep(score, val), update, ranks)
    requires forall i {:trigger ns[i].height} :: 0 <= i < |ns| ==> ns[i].height > 0
    ensures Fits(ns, ranks[0], score)
  {
    var keep, r := InsertKeep(score, val), ranks[0];
    StopKept(ns, keep, update, ranks, 0);
    assert LevelOk(ns, 0) && Stopped(ns, keep, From(ranks, 0), r, update[0], 0);
    NextNode(ns, r);
  }

  /** Above every node's height only the head has a link, and it is NULL. */
  lemma TopLevel(ns: seq<Node>, levels: nat, r: nat, x: Node, l: nat)
    requires Shape(ns, levels) && r < |ns| && x.height <= levels <= l < MAXLEVEL && LevelOk(ns, l)
    ensures LevelOk(Inserted(ns, r, x), l)
  {
    var ns' := Inserted(ns, r, x);
    assert forall k :: 0 <= k <= r ==> ns'[k] == ns[k];
    assert forall k :: r + 1 < k < |ns'| ==> ns'[k] == ns[k - 1];
    assert LinkOk(ns, 0, l, ns[0].At(l));
    forall i | 0 <= i < |ns'| && ns'[i].height > l ensures LinkOk(ns', i, l, ns'[i].At(l)) {
      assert i == 0;
    }
  }

  // ----- linking a node in

  /** The level-l link of the node now at position i, after the link out of pu has been cut in two. */
  function SplicedLink(r: nat, x: Node, pu: nat, cut: Link, i: nat, link: Link): Link {
    if i == r + 1 then Link(cut.forward, cut.span - (r - pu))
    else if i == pu then Link(x, r - pu + 1)
    else link
  }

  lemma SplicedLinkOk(ns: seq<Node>, r: nat, x: Node, pu: nat, l: nat, cut: Link, i: nat, link: Link)
    requires pu <= r < |ns| && ns[pu].height > l && Below(ns, pu, r + 1, l) && LinkOk(ns, pu, l, cut) && x.height > l
    requires i < |ns| + 1 && Inserted(ns, r, x)[i].height > l
    requires i != r + 1 ==> LinkOk(ns, OldPos(r, i), l, link)
    ensures LinkOk(Inserted(ns, r, x), i, l, SplicedLink(r, x, pu, cut, i, link))
  {
    if i == r + 1 {
      LinkFromNew(ns, r, x, pu, l, cut);
    } else if i > r + 1 {
      LinkAfter(ns, r, x, i - 1, l, link);
    } else if i == pu {
      LinkToNew(ns, r, x, pu, l);
    } else {
      assert Inserted(ns, r, x)[i] == ns[i];
      LinkBefore(ns, r, x, i, l, link);
    }
  }

  /** On one level that the new node reaches: cut the link that crosses position r in two. */
  method Splice(ghost ns: seq<Node>, r: nat, x: Node, u: Node, pu: nat, l: nat)
    requires pu <= r < |ns| && ns[pu] == u && u.height > l && |u.level| == u.height && Below(ns, pu, r + 1, l)
    requires Distinct(ns) && x !in ns && x.height > l && |x.level| == x.height
    requires LevelOk(ns, l)
    modifies u`level, x`level
    ensures LevelOk(Inserted(ns, r, x), l)
    ensures u.level == old(u.level)[l := Link(x, r - pu + 1)]
    ensures var link := old(u.level)[l]; x.level == old(x.level)[l := Link(link.forward, link.span - (r - pu))]
  {
    assert LinkOk(ns, pu, l, u.At(l));
    var link := u.level[l];
    x.level := x.level[l := Link(link.forward, link.span - (r - pu))];
    u.level := u.level[l := Link(x, r - pu + 1)];
    ghost var ns' := Inserted(ns, r, x);
    forall i | 0 <= i < |ns'| && ns'[i].height > l ensures LinkOk(ns', i, l, ns'[i].At(l)) {
      ghost var n := ns'[i];
      ghost var was := old(n.At(l));
      if i != r + 1 {
        assert n == ns[OldPos(r, i)];
        assert old(LinkOk(ns, OldPos(r, i), l, ns[OldPos(r, i)].At(l)));
      }
      SplicedLinkOk(ns, r, x, pu, l, link, i, was);
      assert n.At(l) == SplicedLink(r, x, pu, link, i, was);
    }
  }

  lemma LinkAcross(ns: seq<Node>, r: nat, x: Node, pu: nat, l: nat, link: Link)
    requires pu <= r < |ns| && LinkOk(ns, pu, l, link) && Below(ns, pu, r + 1, l) && x.height <= l
    ensures LinkOk(Inserted(ns, r, x), pu, l, link.(span := link.span + 1))
  {
    var ns' := Inserted(ns, r, x);
    assert forall k :: r + 1 < k < |ns'| ==> ns'[k] == ns[k - 1];
    assert forall k :: 0 <= k <= r ==> ns'[k] == ns[k];
    assert link.forward != null ==> pu + link.span > r;
  }

  /** On one level that the new node does not reach: the link that crosses position r grows by one. */
  method Stretch(ghost ns: seq<Node>, ghost r: nat, ghost x: Node, u: Node, ghost pu: nat, l: nat)
    requires pu <= r < |ns| && ns[pu] == u && u.height > l && |u.level| == u.height && Below(ns, pu, r + 1, l)
    requires Distinct(ns) && x !in ns && x.height <= l
    requires LevelOk(ns, l)
    modifies u`level
    ensures LevelOk(Inserted(ns, r, x), l)
    ensures var link := old(u.level)[l]; u.level == old(u.level)[l := link.(span := link.span + 1)]
  {
    assert LinkOk(ns, pu, l, u.At(l));
    u.level := u.level[l := u.level[l].(span := u.level[l].span + 1)];
    ghost var ns' := Inserted(ns, r, x);
    forall i | 0 <= i < |ns'| && ns'[i].height > l ensures LinkOk(ns', i, l, ns'[i].At(l)) {
      if i > r + 1 {
        assert ns'[i] == ns[i - 1];
        LinkAfter(ns, r, x, i - 1, l, old(ns[i - 1].At(l)));
      } else {
        assert ns'[i] == ns[i];
        if i == pu {
          LinkAcross(ns, r, x, pu, l, old(u.At(l)));
        } else {
          LinkBefore(ns, r, x, i, l, old(ns[i].At(l)));
        }
      }
    }
  }

  /** The list without the node at position p. */
  function Removed(ns: seq<Node>, p: nat): seq<Node>
    requires p < |ns|
  {
    ns[..p] + ns[p + 1..]
  }

  /** Levels below i are right for the list ns, the others for the list without its node at position p. */
  ghost predicate Half(ns: seq<Node>, p: nat, i: nat)
    requires p < |ns|
    reads ns`level
  {
    && Sized(ns)
    && (forall l {:trigger LevelOk(ns, l)} :: 0 <= l < i ==> LevelOk(ns, l))
    && (forall l {:trigger LevelOk(Removed(ns, p), l)} :: i <= l < MAXLEVEL ==> LevelOk(Removed(ns, p), l))
  }

  method SpliceStep(ghost ns: seq<Node>, r: nat, x: Node, u: Node, pu: nat, i: nat)
    requires pu <= r < |ns| && ns[pu] == u && u.height > i && Below(ns, pu, r + 1, i)
    requires Distinct(ns) && x !in ns && i < MAXLEVEL && i < x.height
    requires Half(Inserted(ns, r, x), r + 1, i)
    modifies u`level, x`level
    ensures Half(Inserted(ns, r, x), r + 1, i + 1)
  {
    ghost var ns' := Inserted(ns, r, x);
    assert ns'[r + 1] == x && ns'[pu] == u && Removed(ns', r + 1) == ns;
    assert LevelOk(Removed(ns', r + 1), i);
    Splice(ns, r, x, u, pu, i);
    assert Sized(ns');
    assert forall n: Node, l: nat {:trigger n.At(l)} :: n in ns' && l != i ==> n.At(l) == old(n.At(l));
    forall l, k | 0 <= l < i && 0 <= k < |ns'| && ns'[k].height > l ensures LinkOk(ns', k, l, ns'[k].At(l)) {
      assert old(LevelOk(ns', l)) && old(LinkOk(ns', k, l, ns'[k].At(l)));
    }
    forall l, k | i < l < MAXLEVEL && 0 <= k < |ns| && ns[k].height > l ensures LinkOk(ns, k, l, ns[k].At(l)) {
      assert old(LevelOk(Removed(ns', r + 1), l)) && old(LinkOk(ns, k, l, ns[k].At(l)));
    }
  }

  method StretchStep(ghost ns: seq<Node>, ghost r: nat, x: Node, u: Node, ghost pu: nat, i: nat)
    requires pu <= r < |ns| && ns[pu] == u && u.height > i && Below(ns, pu, r + 1, i)
    requires Distinct(ns) && x !in ns && i < MAXLEVEL && x.height <= i
    requires Half(Inserted(ns, r, x), r + 1, i)
    modifies u`level
    ensures Half(Inserted(ns, r, x), r + 1, i + 1)
  {
    ghost var ns' := Inserted(ns, r, x);
    assert ns'[r + 1] == x && ns'[pu] == u && Removed(ns', r + 1) == ns;
    assert LevelOk(Removed(ns', r + 1), i);
    Stretch(ns, r, x, u, pu, i);
    forall l, k | 0 <= l < i && 0 <= k < |ns'| && ns'[k].height > l ensures LinkOk(ns', k, l, ns'[k].At(l)) {
      assert old(LevelOk(ns', l)) && old(LinkOk(ns', k, l, ns'[k].At(l)));
    }
    forall l, k | i < l < MAXLEVEL && 0 <= k < |ns| && ns[k].height > l ensures LinkOk(ns, k, l, ns[k].At(l)) {
      assert old(LevelOk(Removed(ns', r + 1), l)) && old(LinkOk(ns, k, l, ns[k].At(l)));
    }
  }

  /** The levels the new node reaches. */
  method SpliceAll(ghost ns: seq<Node>, r: nat, x: Node, update: seq<Node>, ranks: seq<nat>)
    requires Path(ns, r, update, ranks) && x.height <= |update| <= MAXLEVEL
    requires Distinct(ns) && x !in ns && Half(Inserted(ns, r, x), r + 1, 0)
    modifies update`level, x`level
    ensures Half(Inserted(ns, r, x), r + 1, x.height)
  {
    for i := 0 to x.height
      invariant Half(Inserted(ns, r, x), r + 1, i)
    {
      SpliceStep(ns, r, x, update[i], ranks[i], i);
    }
  }

  /** The levels above the new node. */
  method StretchAll(ghost ns: seq<Node>, ghost r: nat, x: Node, update: seq<Node>, ghost ranks: seq<nat>)
    requires Path(ns, r, update, ranks) && x.height <= |update| <= MAXLEVEL
    requires Distinct(ns) && x !in ns && Half(Inserted(ns, r, x), r + 1, x.height)
    modifies update`level
    ensures Half(Inserted(ns, r, x), r + 1, |update|)
  {
    for i := x.height to |update|
      invariant Half(Inserted(ns, r, x), r + 1, i)
    {
      StretchStep(ns, r, x, update[i], ranks[i], i);
    }
  }

  /** All levels of the longer list. */
  method Weave(ghost ns: seq<Node>, ghost levels: nat, x: Node, update: seq<Node>, ranks: seq<nat>)
    requires Shape(ns, levels) && Levels(ns) && Sized(ns)
    requires |update| == levels && Path(ns, if |ranks| > 0 then ranks[0] else -1, update, ranks)
    requires 1 <= x.height <= levels && |x.level| == x.height && x !in ns
    modifies update`level, x`level
    ensures Levels(Inserted(ns, ranks[0], x)) && Sized(Inserted(ns, ranks[0], x))
  {
    ghost var r := ranks[0];
    ghost var ns' := Inserted(ns, r, x);
    assert Removed(ns', r + 1) == ns;
    SpliceAll(ns, ranks[0], x, update, ranks);
    StretchAll(ns, r, x, update, ranks);
    forall l: nat | l < MAXLEVEL ensures LevelOk(ns', l) {
      if l >= levels {
        assert LevelOk(Removed(ns', r + 1), l);
        TopLevel(ns, levels, r, x, l);
      }
    }
  }

  // ----- removal

  /** A link that ends before position p, or starts after it, is right for the shorter list as it stands. */
  lemma LinkKept(ns: seq<Node>, p: nat, i: nat, l: nat, link: Link)
    requires p < |ns| && LinkOk(ns, i, l, link) && i != p
    requires i < p ==> link.forward != null && i + link.span < p
    ensures LinkOk(Removed(ns, p), if i < p then i else i - 1, l, link)
  {
    var ms := Removed(ns, p);
    assert forall k :: 0 <= k < p ==> ms[k] == ns[k];
    assert forall k :: p <= k < |ms| ==> ms[k] == ns[k + 1];
  }

  /** The link of the last node before p that reaches the level, once the node at p is gone. */
  function JoinedLink(x: Node, l: nat, link: Link, out: Link): Link {
    if link.forward == x then Link(out.forward, link.span + out.span - 1) else link.(span := link.span - 1)
  }

  lemma LinkJoined(ns: seq<Node>, p: nat, pu: nat, l: nat, link: Link, out: Link)
    requires Distinct(ns) && pu < p < |ns| && Below(ns, pu, p, l) && LinkOk(ns, pu, l, link)
    requires ns[p].height > l ==> LinkOk(ns, p, l, out)
    ensures LinkOk(Removed(ns, p), pu, l, JoinedLink(ns[p], l, link, out))
    ensures link.forward == ns[p] <==> ns[p].height > l
  {
    var ms := Removed(ns, p);
    assert forall k :: 0 <= k < p ==> ms[k] == ns[k];
    assert forall k :: p <= k < |ms| ==> ms[k] == ns[k + 1];
    assert link.forward != null ==> pu + link.span >= p;
    assert ns[p].height > l ==> link.forward != null && pu + link.span == p;
  }

  /** Where the node at position i of the shorter list used to be. */
  function OldIndex(p: nat, i: nat): nat {
    if i < p then i else i + 1
  }

  lemma RemovedLinkOk(ns: seq<Node>, p: nat, pu: nat, l: nat, cut: Link, out: Link, i: nat, link: Link)
    requires Distinct(ns) && pu < p < |ns| && ns[pu].height > l && Below(ns, pu, p, l) && LinkOk(ns, pu, l, cut)
    requires ns[p].height > l ==> LinkOk(ns, p, l, out)
    requires i < |ns| - 1 && ns[OldIndex(p, i)].height > l && LinkOk(ns, OldIndex(p, i), l, link)
    ensures LinkOk(Removed(ns, p), i, l, if i == pu then JoinedLink(ns[p], l, cut, out) else link)
  {
    if i == pu {
      LinkJoined(ns, p, pu, l, cut, out);
    } else {
      LinkKept(ns, p, OldIndex(p, i), l, link);
    }
  }

  /** One level of DeleteNode. */
  method Unsplice(ghost ns: seq<Node>, ghost p: nat, x: Node, u: Node, ghost pu: nat, l: nat)
    requires pu < p < |ns| && ns[pu] == u && u.height > l && |u.level| == u.height && Below(ns, pu, p, l)
    requires Distinct(ns) && ns[p] == x && |x.level| == x.height && LevelOk(ns, l)
    modifies u`level
    ensures LevelOk(Removed(ns, p), l)
    ensures u.level == old(u.level)[l := JoinedLink(x, l, old(u.level)[l], x.At(l))]
  {
    assert LinkOk(ns, pu, l, u.At(l)) && (x.height > l ==> LinkOk(ns, p, l, x.At(l)));
    var link := u.level[l];
    ghost var out := x.At(l);
    LinkJoined(ns, p, pu, l, link, out);
    if link.forward == x {
      link := Link(x.level[l].forward, link.span + (x.level[l].span - 1));
    } else {
      link := link.(span := link.span - 1);
    }
    u.level := u.level[l := link];
    ghost var ms, cut := Removed(ns, p), old(u.level)[l];
    assert link == JoinedLink(x, l, cut, out);
    forall i | 0 <= i < |ms| && ms[i].height > l ensures LinkOk(ms, i, l, ms[i].At(l)) {
      ghost var n, k := ms[i], OldIndex(p, i);
      ghost var was := old(n.At(l));
      assert n == ns[k];
      assert old(LinkOk(ns, k, l, ns[k].At(l)));
      RemovedLinkOk(ns, p, pu, l, cut, out, i, was);
      assert n.At(l) == if i == pu then link else was;
    }
  }

  /** Levels below i are right for the list without its node at position p, the others for the list ns. */
  ghost predicate Shrunk(ns: seq<Node>, p: nat, i: nat)
    requires p < |ns|
    reads ns`level
  {
    && Sized(ns)
    && (forall l {:trigger LevelOk(Removed(ns, p), l)} :: 0 <= l < i ==> LevelOk(Removed(ns, p), l))
    && (forall l {:trigger LevelOk(ns, l)} :: i <= l < MAXLEVEL ==> LevelOk(ns, l))
  }

  method UnspliceStep(ghost ns: seq<Node>, ghost p: nat, x: Node, u: Node, ghost pu: nat, i: nat)
    requires pu < p < |ns| && ns[pu] == u && u.height > i && Below(ns, pu, p, i)
    requires Distinct(ns) && ns[p] == x && i < MAXLEVEL && Shrunk(ns, p, i)
    modifies u`level
    ensures Shrunk(ns, p, i + 1)
  {
    assert LevelOk(ns, i);
    Unsplice(ns, p, x, u, pu, i);
    ghost var ms := Removed(ns, p);
    forall l, k | 0 <= l < i && 0 <= k < |ms| && ms[k].height > l ensures LinkOk(ms, k, l, ms[k].At(l)) {
      assert old(LevelOk(Removed(ns, p), l)) && old(LinkOk(ms, k, l, ms[k].At(l)));
    }
    forall l, k | i < l < MAXLEVEL && 0 <= k < |ns| && ns[k].height > l ensures LinkOk(ns, k, l, ns[k].At(l)) {
      assert old(LevelOk(ns, l)) && old(LinkOk(ns, k, l, ns[k].At(l)));
    }
  }

  method UnspliceAll(ghost ns: seq<Node>, ghost p: nat, x: Node, update: seq<Node>, ghost ranks: seq<nat>)
    requires 0 < p < |ns| && ns[p] == x && Distinct(ns) && |update| <= MAXLEVEL
    requires Path(ns, p - 1, update, ranks) && Shrunk(ns, p, 0)
    modifies update`level
    ensures Shrunk(ns, p, |update|)
  {
    for i := 0 to |update|
      invariant Shrunk(ns, p, i)
    {
      UnspliceStep(ns, p, x, update[i], ranks[i], i);
    }
  }

  lemma RemovedTop(ns: seq<Node>, levels: nat, p: nat, l: nat)
    requires Shape(ns, levels) && 0 < p < |ns| && levels <= l < MAXLEVEL && LevelOk(ns, l)
    ensures LevelOk(Removed(ns, p), l)
  {
    var ms := Removed(ns, p);
    assert forall k :: 0 <= k < |ms| ==> ms[k] == ns[OldIndex(p, k)];
    assert LinkOk(ns, 0, l, ns[0].At(l));
    forall i | 0 <= i < |ms| && ms[i].height > l ensures LinkOk(ms, i, l, ms[i].At(l)) {
      assert i == 0;
    }
  }

  lemma RemovedShape(ns: seq<Node>, levels: nat, p: nat)
    requires Shape(ns, levels) && Sorted(ns) && 0 < p < |ns|
    ensures Shape(Removed(ns, p), levels) && Sorted(Removed(ns, p))
  {
    var ms := Removed(ns, p);
    assert forall k :: 0 <= k < |ms| ==> ms[k] == ns[OldIndex(p, k)];
  }

  method Unweave(ghost ns: seq<Node>, ghost levels: nat, ghost p: nat, x: Node, update: seq<Node>,
                 ghost ranks: seq<nat>)
    requires Shape(ns, levels) && Levels(ns) && Sized(ns) && 0 < p < |ns| && ns[p] == x
    requires |update| == levels && Path(ns, p - 1, update, ranks)
    modifies ns`level
    ensures Levels(Removed(ns, p)) && Sized(Removed(ns, p))
    ensures x.level == old(x.level)
  {
    assert x !in update && forall n {:trigger n in update} :: n in update ==> n in ns;
    UnspliceAll(ns, p, x, update, ranks);
    forall l: nat | l < MAXLEVEL ensures LevelOk(Removed(ns, p), l) {
      if l >= levels {
        assert LevelOk(ns, l);
        RemovedTop(ns, levels, p, l);
      }
    }
  }

  // ----- where Delete and GetRank end up

  predicate Target(ns: seq<Node>, t: int, score: real, val: string) {
    0 < t < |ns| && ns[t].score == score && ns[t].val == val
  }

  /** No later node of the same score is taller. */
  predicate TieFree(ns: seq<Node>, t: int)
    requires 0 <= t < |ns|
  {
    forall k {:trigger ns[k].height} :: t < k < |ns| && ns[k].score == ns[t].score ==> ns[k].height <= ns[t].height
  }

  lemma TargetNotPassed(ns: seq<Node>, score: real, val: string, t: nat, from: nat, p: nat, l: nat)
    requires Sorted(ns) && Target(ns, t, score, val)
    requires TieFree(ns, t) && from < t && from <= p < |ns| && ns[p].height > l
    requires forall k {:trigger ns[k].height} :: from < k <= p && ns[k].height > l ==> InsertKeep(score, val)(ns[k])
    ensures p < t
  {
    var keep := InsertKeep(score, val);
    var n, m := ns[p], ns[t];
    assert p > from ==> n.height > l && keep(n);
    assert m.height <= l || keep(m) || p < t;
    assert n.score <= score || p == from;
  }

  /** Without a taller tie behind it, every walk stops before the target. */
  lemma {:induction false} StopBeforeTarget(ns: seq<Node>, score: real, val: string, update: seq<Node>, ranks: seq<nat>,
                                            t: nat, l: nat)
    requires Sorted(ns) && Target(ns, t, score, val) && TieFree(ns, t)
    requires Descended(ns, InsertKeep(score, val), update, ranks) && l < |ranks|
    ensures ranks[l] < t
    decreases |ranks| - l
  {
    if l + 1 < |ranks| {
      StopBeforeTarget(ns, score, val, update, ranks, t, l + 1);
    }
    var p := ranks[l];
    assert Stopped(ns, InsertKeep(score, val), From(ranks, l), p, update[l], l);
    TargetNotPassed(ns, score, val, t, From(ranks, l), p, l);
  }

  /** A target ahead of the search with a taller tie behind it has a taller target ahead of the search too: the walk on
      the tie's top level has stopped in front of one. */
  lemma TallerTwin(ns: seq<Node>, score: real, val: string, update: seq<Node>, ranks: seq<nat>, t: nat, k: nat)
      returns (n: nat)
    requires Shape(ns, |ranks|) && Levels(ns) && Sorted(ns) && Descended(ns, InsertKeep(score, val), update, ranks)
    requires ranks[0] < t < k < |ns| && Target(ns, t, score, val) && ns[k].score == score && ns[k].height > ns[t].height
    ensures ranks[0] < n < |ns| && Target(ns, n, score, val) && ns[n].height > ns[t].height
  {
    var keep, l := InsertKeep(score, val), ns[k].height - 1;
    var p, u := ranks[l], update[l];
    assert LevelOk(ns, l) && Stopped(ns, keep, From(ranks, l), p, u, l);
    assert LinkOk(ns, p, l, u.At(l));
    RanksFall(ns, keep, update, ranks, l);
    n := p + u.At(l).span;
    assert n <= k && !keep(ns[n]);
    NotPassedBelow(ns, keep, update, ranks, l, 0, n);
  }

  /** Of the targets ahead of the search, a tallest one. */
  lemma Tallest(ns: seq<Node>, score: real, val: string, r: nat, t0: nat) returns (t: nat)
    requires r < t0 < |ns| && Target(ns, t0, score, val)
    ensures r < t < |ns| && Target(ns, t, score, val)
    ensures forall k {:trigger Target(ns, k, score, val)} :: r < k < |ns| && Target(ns, k, score, val) ==>
      ns[k].height <= ns[t].height
  {
    t := t0;
    for i := r + 1 to |ns|
      invariant r < t < |ns| && Target(ns, t, score, val)
      invariant forall k {:trigger Target(ns, k, score, val)} :: r < k < i && Target(ns, k, score, val) ==>
        ns[k].height <= ns[t].height
    {
      if Target(ns, i, score, val) && ns[i].height > ns[t].height {
        t := i;
      }
    }
  }

  /** The search of Insert and Delete arrives at the member exactly when some node holds it with no taller tie
      behind. */
  lemma SearchArrives(ns: seq<Node>, score: real, val: string, update: seq<Node>, ranks: seq<nat>)
    requires Shape(ns, |ranks|) && Levels(ns) && Sorted(ns) && Descended(ns, InsertKeep(score, val), update, ranks)
    ensures Target(ns, ranks[0] + 1, score, val) <==> exists t :: Target(ns, t, score, val) && TieFree(ns, t)
  {
    var keep, r := InsertKeep(score, val), ranks[0];
    assert LevelOk(ns, 0) && Stopped(ns, keep, From(ranks, 0), r, update[0], 0);
    NextNode(ns, r);
    if t :| Target(ns, t, score, val) && TieFree(ns, t) {
      StopBeforeTarget(ns, score, val, update, ranks, t, 0);
      assert ns[r + 1].score <= ns[t].score && !keep(ns[r + 1]);
    }
    if Target(ns, r + 1, score, val) {
      var t := Tallest(ns, score, val, r, r + 1);
      forall k | t < k < |ns| && ns[k].score == ns[t].score ensures ns[k].height <= ns[t].height {
        if ns[k].height > ns[t].height {
          var n := TallerTwin(ns, score, val, update, ranks, t, k);
        }
      }
      assert TieFree(ns, t);
    }
  }

  // ----- the abstract value

  datatype Entry = Entry(score: real, val: string, height: nat)

  function EntryOf(n: Node): Entry {
    Entry(n.score, n.val, n.height)
  }

  /** The members in list order, without the head. */
  function Entries(ns: seq<Node>): (es: seq<Entry>)
    requires |ns| > 0
    ensures |es| == |ns| - 1
    ensures forall i {:trigger es[i]} :: 0 <= i < |es| ==> es[i] == EntryOf(ns[i + 1])
  {
    seq(|ns| - 1, i requires 0 <= i < |ns| - 1 => EntryOf(ns[i + 1]))
  }

  /** How many entries at the front have at most this score. */
  function Place(es: seq<Entry>, score: real): (p: nat)
    ensures p <= |es|
  {
    if es == [] || es[0].score > score then 0 else 1 + Place(es[1..], score)
  }

  /** Insertion into a sorted sequence, after the entries of equal score. */
  function WithEntry(es: seq<Entry>, e: Entry): seq<Entry> {
    var p := Place(es, e.score);
    es[..p] + [e] + es[p..]
  }

  lemma {:induction false} PlaceIs(es: seq<Entry>, score: real, p: nat)
    requires p <= |es| && (forall i :: 0 <= i < p ==> es[i].score <= score)
    requires p < |es| ==> es[p].score > score
    ensures Place(es, score) == p
  {
    if p > 0 {
      PlaceIs(es[1..], score, p - 1);
    }
  }

  lemma InsertedAt(ns: seq<Node>, r: nat, x: Node)
    requires r < |ns|
    ensures Entries(Inserted(ns, r, x)) == Entries(ns)[..r] + [EntryOf(x)] + Entries(ns)[r..]
  {
    var es, ns' := Entries(ns), Inserted(ns, r, x);
    var es' := es[..r] + [EntryOf(x)] + es[r..];
    forall i | 0 <= i < |es'| ensures Entries(ns')[i] == es'[i] {
      assert Entries(ns')[i] == EntryOf(ns'[i + 1]);
      if i > r {
        assert es'[i] == es[i - 1] && ns'[i + 1] == ns[i];
      }
    }
  }

  lemma InsertedEntries(ns: seq<Node>, r: nat, x: Node)
    requires r < |ns| && NoTwin(ns, x.score, x.val) && Cut(ns, InsertKeep(x.score, x.val), r)
    ensures Entries(Inserted(ns, r, x)) == WithEntry(Entries(ns), EntryOf(x))
  {
    var es := Entries(ns);
    InsertedAt(ns, r, x);
    forall k | 0 < k < |ns| ensures if k <= r then ns[k].score <= x.score else ns[k].score > x.score {
      CutByScore(ns, x.score, x.val, r, k);
    }
    PlaceIs(es, x.score, r);
  }

  /** Position t of the member sequence holds this member, and no later entry of its score is taller. */
  predicate Findable(es: seq<Entry>, score: real, val: string, t: int) {
    && 0 <= t < |es| && es[t].score == score && es[t].val == val
    && (forall k {:trigger es[k].height} :: t < k < |es| && es[k].score == score ==> es[k].height <= es[t].height)
  }

  function Without(es: seq<Entry>, t: nat): seq<Entry>
    requires t < |es|
  {
    es[..t] + es[t + 1..]
  }

  lemma FindableTarget(ns: seq<Node>, score: real, val: string, t: nat)
    requires 0 < t < |ns|
    ensures Findable(Entries(ns), score, val, t - 1) <==> Target(ns, t, score, val) && TieFree(ns, t)
  {
    var es := Entries(ns);
    assert forall k {:trigger ns[k].height} :: 0 < k < |ns| ==> es[k - 1] == EntryOf(ns[k]);
  }

  lemma RemovedEntries(ns: seq<Node>, p: nat)
    requires 0 < p < |ns|
    ensures Entries(Removed(ns, p)) == Without(Entries(ns), p - 1)
  {
  }

  lemma FindableIsTarget(ns: seq<Node>, score: real, val: string)
    requires |ns| > 0
    ensures (exists t :: Findable(Entries(ns), score, val, t))
      <==> exists t :: Target(ns, t, score, val) && TieFree(ns, t)
  {
    if t :| Findable(Entries(ns), score, val, t) {
      FindableTarget(ns, score, val, t + 1);
    }
    if t :| Target(ns, t, score, val) && TieFree(ns, t) {
      FindableTarget(ns, score, val, t);
      assert Findable(Entries(ns), score, val, t - 1);
    }
  }

  /** One entry for this member with this score is gone. */
  predicate RemovedOne(es: seq<Entry>, score: real, val: string, es': seq<Entry>) {
    exists q {:trigger es[q]} :: 0 <= q < |es| && es[q].score == score && es[q].val == val && es' == Without(es, q)
  }

  /** One entry has come in, among those of its score. */
  predicate AddedOne(es: seq<Entry>, e: Entry, es': seq<Entry>) {
    exists q: nat {:trigger es[..q]} :: q <= |es| && es' == es[..q] + [e] + es[q..]
      && (q > 0 ==> es[q - 1].score <= e.score) && (q < |es| ==> e.score <= es[q].score)
  }

  /** Position t holds this member, its score is at most the given one, and no later member of at most the given
      score is taller. */
  predicate Rankable(ns: seq<Node>, score: real, val: string, t: int) {
    && 0 < t < |ns| && ns[t].val == val && ns[t].score <= score
    && (forall k {:trigger ns[k].height} :: t < k < |ns| && ns[k].score <= score ==> ns[k].height <= ns[t].height)
  }

  ghost predicate FirstRankable(ns: seq<Node>, score: real, val: string, p: int) {
    Rankable(ns, score, val, p) && forall t {:trigger Rankable(ns, score, val, t)} :: t < p ==>
      !Rankable(ns, score, val, t)
  }

  /** The search for a rank stands at position p having walked the levels from l up without finding the member:
      everything further on that reaches those levels has a larger score, and a member left behind is not rankable. */
  ghost predicate Missed(ns: seq<Node>, score: real, val: string, p: int, l: nat) {
    && 0 <= p < |ns| && (p > 0 ==> ns[p].score <= score && ns[p].val != val)
    && (forall k {:trigger ns[k].height} :: p < k < |ns| && ns[k].height > l ==> ns[k].score > score)
    && (forall t {:trigger Rankable(ns, score, val, t)} :: t < p ==> !Rankable(ns, score, val, t))
  }

  lemma MissedStep(ns: seq<Node>, score: real, val: string, was: nat, p: nat, l: nat)
    requires Missed(ns, score, val, was, l + 1) && Sorted(ns)
    requires was < p < |ns| && Below(ns, was, p, l) && ns[p].height > l && ns[p].score <= score
    ensures if ns[p].val == val then FirstRankable(ns, score, val, p) else Missed(ns, score, val, p, l + 1)
  {
    forall t | t < p ensures !Rankable(ns, score, val, t) || t <= was {
      if was < t {
        assert ns[t].height <= l;
      }
    }
  }

  lemma MissedEnd(ns: seq<Node>, score: real, val: string, p: nat, l: nat, link: Link)
    requires Missed(ns, score, val, p, l + 1) && Sorted(ns) && LinkOk(ns, p, l, link)
    requires link.forward != null ==> link.forward.score > score
    ensures Missed(ns, score, val, p, l)
  {
    forall k | p < k < |ns| && ns[k].height > l ensures ns[k].score > score {
      if link.forward != null {
        assert ns[p + link.span].score <= ns[k].score;
      }
    }
  }

  lemma MissedAll(ns: seq<Node>, levels: nat, score: real, val: string, p: nat, t: int)
    requires Shape(ns, levels) && Missed(ns, score, val, p, 0)
    ensures !Rankable(ns, score, val, t)
  {
    if p < t < |ns| {
      assert ns[t].height > 0;
    }
  }

  /** The bounds of a range, given in any order. */
  function Low(a: real, b: real): (r: real)
    ensures r <= a && r <= b && (r == a || r == b)
  {
    if a > b then b else a
  }

  function High(a: real, b: real): (r: real)
    ensures r >= a && r >= b && (r == a || r == b)
  {
    if a > b then a else b
  }

  /** No member has a score between the bounds. */
  predicate NoneIn(ns: seq<Node>, lo: real, hi: real) {
    forall k {:trigger ns[k].score} :: 0 < k < |ns| ==> ns[k].score < lo || ns[k].score > hi
  }

  predicate FirstIn(ns: seq<Node>, lo: real, hi: real, f: int) {
    && 0 < f < |ns| && lo <= ns[f].score <= hi
    && (forall k {:trigger ns[k].score} :: 0 < k < f ==> ns[k].score < lo)
  }

  predicate LastIn(ns: seq<Node>, lo: real, hi: real, g: int) {
    && 0 < g < |ns| && lo <= ns[g].score <= hi
    && (forall k {:trigger ns[k].score} :: g < k < |ns| ==> ns[k].score > hi)
  }

  lemma LastIsLargest(ns: seq<Node>)
    requires Sorted(ns) && |ns| > 1
    ensures forall k {:trigger ns[k].score} :: 0 < k < |ns| ==> ns[k].score <= ns[|ns| - 1].score
  {
  }

  lemma CutBelow(ns: seq<Node>, keep: Node -> bool, lo: real, r: nat)
    requires Sorted(ns) && Cut(ns, keep, r) && forall n {:trigger keep(n)} :: keep(n) <==> n.score < lo
    ensures forall k {:trigger ns[k].score} :: 0 < k < |ns| ==> if k <= r then ns[k].score < lo else ns[k].score >= lo
    ensures r + 1 < |ns| ==> forall k {:trigger ns[k].score} :: r < k < |ns| ==> ns[r + 1].score <= ns[k].score
  {
    forall k | 0 < k < |ns| ensures if k <= r then ns[k].score < lo else ns[k].score >= lo {
      assert keep(ns[k]) <==> k <= r;
    }
  }

  lemma CutAbove(ns: seq<Node>, keep: Node -> bool, hi: real, r: nat)
    requires Sorted(ns) && Cut(ns, keep, r) && forall n {:trigger keep(n)} :: keep(n) <==> n.score <= hi
    ensures forall k {:trigger ns[k].score} :: 0 < k < |ns| ==>
      if k <= r then ns[k].score <= ns[r].score <= hi else ns[k].score > hi
  {
    forall k | 0 < k < |ns| ensures if k <= r then ns[k].score <= ns[r].score <= hi else ns[k].score > hi {
      assert keep(ns[k]) <==> k <= r;
      assert r > 0 ==> (keep(ns[r]) <==> r <= r);
    }
  }

  class SkipList {
    var head: Node
    var tail: Node?
    var length: nat
    var levels: nat
    ghost var order: seq<Node>  // the head, then the members in list order
    ghost var repr: set<Node>   // every node this list owns

    /** The list has no more levels than its tallest node. */
    ghost predicate Topped()
      reads this`order, this`levels
    {
      levels == 1 || Reached(order, levels)
    }

    /** A list sorted by score, with every link, span and backward link right. */
    ghost predicate Valid()
      reads this, repr
    {
      && (forall i {:trigger order[i]} :: 0 <= i < |order| ==> order[i] in repr)
      && Shape(order, levels) && order[0] == head && head.score == -1.0 && Sorted(order)
      && Sized(order) && Levels(order) && Mirror(order)
      && tail == (if |order| == 1 then null else order[|order| - 1])
      && length >= |order| - 1
    }

    constructor ()
      ensures Valid() && fresh(repr) && |order| == 1 && length == 0 && levels == 1 && Topped()
      ensures head.score == -1.0
    {
      head := new Node(MAXLEVEL, -1.0, "");
      tail, length, levels := null, 0, 1;
      order, repr := [head], {head};
      new;
      forall l: nat | l < MAXLEVEL ensures LevelOk(order, l) {
        assert order[0].At(l) == Link(null, 0);
      }
    }

    method Walk(keep: Node -> bool, l: nat, start: Node, from: nat) returns (x: Node, rank: nat)
      requires Valid() && l < MAXLEVEL
      requires from < |order| && order[from] == start && start.height > l
      ensures Stopped(order, keep, from, rank, x, l)
    {
      x, rank := start, from;
      assert LevelOk(order, l);
      while x.level[l].forward != null && keep(x.level[l].forward)
        invariant from <= rank < |order| && order[rank] == x && x.height > l
        invariant forall k {:trigger order[k].height} :: from < k <= rank && order[k].height > l ==> keep(order[k])
        decreases |order| - rank
      {
        assert LinkOk(order, rank, l, x.At(l));
        x, rank := x.level[l].forward, rank + x.level[l].span;
      }
    }

    /** The nested search loops shared by Insert, Delete and the score queries: from the head, on each level
        from the top down, follow links while the next node satisfies keep. */
    method Descend(keep: Node -> bool) returns (update: seq<Node>, ranks: seq<nat>)
      requires Valid()
      ensures |ranks| == levels && Descended(order, keep, update, ranks)
    {
      var x, rank, i := head, 0, levels;
      update, ranks := seq(levels, _ => x), seq(levels, _ => 0);
      while i > 0
        invariant 0 <= i <= levels == |update| == |ranks|
        invariant rank < |order| && order[rank] == x && x.height >= i
        invariant rank == if i < levels then ranks[i] else 0
        invariant forall l {:trigger update[l]} :: i <= l < levels ==>
          Stopped(order, keep, From(ranks, l), ranks[l], update[l], l)
      {
        i := i - 1;
        x, rank := Walk(keep, i, x, rank);
        update, ranks := update[i := x], ranks[i := rank];
      }
    }

    /** The score is one of the list's own ordering conditions: members at most this score come first. */
    lemma InsertKeepIsMonotone(score: real, val: string)
      requires Valid() && NoTwin(order, score, val)
      ensures Monotone(order, InsertKeep(score, val))
    {
      var keep := InsertKeep(score, val);
      forall i, j | 0 < i < j < |order| && keep(order[j]) ensures keep(order[i]) {
        assert order[i].score <= order[j].score;
        assert order[i].val != val || order[i].score != score;
      }
    }

    /** The loop over the new levels. */
    method OpenHeads(top: nat, lvl: nat, update: seq<Node>, ranks: seq<nat>)
        returns (update': seq<Node>, ranks': seq<nat>)
      requires top < lvl <= MAXLEVEL && |update| == |ranks| == top && |head.level| == MAXLEVEL
      modifies head`level
      ensures |update'| == |ranks'| == lvl && update <= update' && ranks <= ranks'
      ensures forall l {:trigger update'[l]} :: top <= l < lvl ==> update'[l] == head
      ensures forall l {:trigger ranks'[l]} :: top <= l < lvl ==> ranks'[l] == 0
      ensures |head.level| == MAXLEVEL
      ensures forall l {:trigger head.level[l]} :: 0 <= l < MAXLEVEL ==>
        head.level[l].forward == old(head.level)[l].forward
      ensures forall l {:trigger head.level[l]} :: 0 <= l < top ==> head.level[l] == old(head.level)[l]
      ensures forall l {:trigger head.level[l]} :: top <= l < lvl ==> head.level[l].span == length
    {
      update', ranks' := update, ranks;
      for i := top to lvl
        invariant |update'| == |ranks'| == i && update <= update' && ranks <= ranks'
        invariant forall l {:trigger update'[l]} :: top <= l < i ==> update'[l] == head
        invariant forall l {:trigger ranks'[l]} :: top <= l < i ==> ranks'[l] == 0
        invariant |head.level| == MAXLEVEL
        invariant forall l {:trigger head.level[l]} :: 0 <= l < MAXLEVEL ==>
          head.level[l].forward == old(head.level)[l].forward
        invariant forall l {:trigger head.level[l]} :: 0 <= l < top ==> head.level[l] == old(head.level)[l]
        invariant forall l {:trigger head.level[l]} :: top <= l < i ==> head.level[l].span == length
      {
        ghost var u, r := update', ranks';
        update', ranks' := update' + [head], ranks' + [0];
        forall l | top <= l < i + 1 ensures update'[l] == head && ranks'[l] == 0 {
          assert l < i ==> update'[l] == u[l] && ranks'[l] == r[l];
        }
        head.level := head.level[i := head.level[i].(span := length)];
      }
    }

    /** A level above the current top: the head gets a NULL link whose span is the recorded length. */
    method OpenLevels(lvl: nat, ghost r: nat, update: seq<Node>, ranks: seq<nat>)
      returns (update': seq<Node>, ranks': seq<nat>)
      requires Valid() && 1 <= lvl <= MAXLEVEL && |update| == levels && Path(order, r, update, ranks)
      modifies this`levels, head`level
      ensures Valid() && levels == if lvl > old(levels) then lvl else old(levels)
      ensures |update'| == |ranks'| == levels && ranks'[0] == ranks[0] && Path(order, r, update', ranks')
    {
      update', ranks' := update, ranks;
      var top := levels;
      if lvl > top {
        update', ranks' := OpenHeads(top, lvl, update, ranks);
        forall l: nat | l < MAXLEVEL ensures LevelOk(order, l) {
          assert old(LevelOk(order, l));
          forall i | 0 <= i < |order| && order[i].height > l ensures LinkOk(order, i, l, order[i].At(l)) {
            assert old(LinkOk(order, i, l, order[i].At(l)));
            if l >= top {
              assert i == 0 && old(head.At(l)).forward == null;
            }
          }
        }
        assert |update'| == lvl && order[0] == head;
        forall l | top <= l < lvl ensures update'[l] == order[0] && ranks'[l] == 0 {
          assert update'[l] == head;
        }
        PathOpens(order, top, r, update, ranks, update', ranks');
        levels := lvl;
      }
    }

    /** The search phase of Insert: where the new member goes, and the links that will cross it. */
    method FindSlot(score: real, val: string, lvl: nat) returns (update: seq<Node>, ranks: seq<nat>)
      requires Valid() && 1 <= lvl <= MAXLEVEL
      modifies this`levels, head`level
      ensures Valid() && |update| == levels && levels == if lvl > old(levels) then lvl else old(levels)
      ensures Path(order, if |ranks| > 0 then ranks[0] else -1, update, ranks) && Fits(order, ranks[0], score)
      ensures NoTwin(order, score, val) ==> Cut(order, InsertKeep(score, val), ranks[0])
    {
      var keep := InsertKeep(score, val);
      update, ranks := Descend(keep);
      DescentFits(order, score, val, update, ranks);
      DescentPath(order, keep, update, ranks);
      if NoTwin(order, score, val) {
        InsertKeepIsMonotone(score, val);
        DescentFindsCut(order, keep, update, ranks);
      }
      update, ranks := OpenLevels(lvl, ranks[0], update, ranks);
    }

    /** Hook x and its neighbours into the backward chain, move the tail if x comes last. */
    method LinkBack(x: Node, before: Node, ghost r: nat)
      requires r < |order| && order[r] == before && order[0] == head && Distinct(order) && x !in order && Mirror(order)
      requires tail == if |order| == 1 then null else order[|order| - 1]
      requires 0 < x.height == |x.level| && x.level[0].forward == if r + 1 < |order| then order[r + 1] else null
      modifies this`tail, x`backward, order`backward
      ensures Mirror(Inserted(order, r, x))
      ensures tail == Inserted(order, r, x)[|order|]
    {
      x.backward := if before == head then null else before;
      if x.level[0].forward != null {
        x.level[0].forward.backward := x;
      } else {
        tail := x;
      }
      ghost var ns' := Inserted(order, r, x);
      forall i | 0 < i < |ns'| ensures ns'[i].backward == if i == 1 then null else ns'[i - 1] {
        if i > r + 1 {
          assert ns'[i] == order[i - 1];
        } else if i <= r {
          assert ns'[i] == order[i];
        }
      }
    }

    /** The linking phase of Insert: all forward links, then the backward ones. */
    method Attach(x: Node, update: seq<Node>, ranks: seq<nat>)
      requires Valid() && |update| == levels && Path(order, if |ranks| > 0 then ranks[0] else -1, update, ranks)
      requires 1 <= x.height <= levels && |x.level| == x.height && x !in order
      modifies this`tail, order, x
      ensures var ns' := Inserted(order, ranks[0], x);
        Levels(ns') && Sized(ns') && Mirror(ns') && tail == ns'[|order|]
    {
      ghost var r := ranks[0];
      ghost var ns' := Inserted(order, r, x);
      Weave(order, levels, x, update, ranks);
      assert Levels(ns') && Sized(ns') && Mirror(order);
      assert LevelOk(ns', 0);
      NextNode(ns', r + 1);
      assert x == ns'[r + 1] && (r + 1 < |order| ==> ns'[r + 2] == order[r + 1]);
      LinkBack(x, update[0], r);
      assert Levels(ns') && Sized(ns');
    }

    /** The longer list is linked; it is what the list is now. */
    method Settle(ghost ns': seq<Node>, ghost x: Node)
      requires forall i {:trigger ns'[i]} :: 0 <= i < |ns'| ==> ns'[i] in repr + {x}
      requires Shape(ns', levels) && ns'[0] == head && head.score == -1.0 && Sorted(ns')
      requires Levels(ns') && Sized(ns') && Mirror(ns') && |ns'| > 1 && tail == ns'[|ns'| - 1] && length + 2 >= |ns'|
      modifies this`length, this`order, this`repr
      ensures Valid() && order == ns' && repr == old(repr) + {x} && length == old(length) + 1
    {
      length := length + 1;
      order, repr := ns', repr + {x};
    }

    method LinkNode(x: Node, update: seq<Node>, ranks: seq<nat>)
      requires Valid() && |update| == levels && Path(order, if |ranks| > 0 then ranks[0] else -1, update, ranks)
      requires 1 <= x.height <= levels && |x.level| == x.height && x !in order
      requires Fits(order, ranks[0], x.score)
      modifies this`tail, this`length, this`order, this`repr, order, x
      ensures Valid() && order == Inserted(old(order), ranks[0], x) && repr == old(repr) + {x}
      ensures head == old(head) && levels == old(levels) && length == old(length) + 1
    {
      ghost var ns' := Inserted(order, ranks[0], x);
      InsertedShape(order, levels, ranks[0], x);
      InsertedSorted(order, ranks[0], x);
      InsertedWithin(order, ranks[0], x, repr);
      Attach(x, update, ranks);
      Settle(ns', x);
    }

    /** Adds a node among those of its score: behind all of them, unless the list already holds the member with that
        score. */
    method Insert(score: real, val: string, lvl: nat)
      requires Valid() && 1 <= lvl <= MAXLEVEL
      modifies this, repr
      ensures Valid() && fresh(repr - old(repr))
      ensures AddedOne(old(Entries(order)), Entry(score, val, lvl), Entries(order))
      ensures old(NoTwin(order, score, val)) ==>
        Entries(order) == WithEntry(old(Entries(order)), Entry(score, val, lvl))
      ensures head == old(head) && length == old(length) + 1
      ensures levels == (if lvl > old(levels) then lvl else old(levels)) && (old(Topped()) ==> Topped())
    {
      var update, ranks := FindSlot(score, val, lvl);
      var x := new Node(lvl, score, val);
      InsertedAt(order, ranks[0], x);
      InsertedReaches(order, ranks[0], x, levels);
      if NoTwin(order, score, val) {
        InsertedEntries(order, ranks[0], x);
      }
      LinkNode(x, update, ranks);
      ghost var es := old(Entries(order));
      assert Entries(order) == es[..ranks[0]] + [Entry(score, val, lvl)] + es[ranks[0]..];
    }

    /** The search phase of Delete and what it means: the node after the last stop is the member looked for exactly when
        some node holds it with no taller tie behind it. */
    method FindVictim(score: real, val: string) returns (x: Node?, update: seq<Node>, ghost ranks: seq<nat>)
      requires Valid()
      ensures |update| == |ranks| == levels && Path(order, ranks[0], update, ranks)
      ensures x == if ranks[0] + 1 < |order| then order[ranks[0] + 1] else null
      ensures Target(order, ranks[0] + 1, score, val) <==> exists t :: Findable(Entries(order), score, val, t)
    {
      var keep := InsertKeep(score, val);
      update, ranks := Descend(keep);
      x := update[0].level[0].forward;
      assert LevelOk(order, 0) && Stopped(order, keep, From(ranks, 0), ranks[0], update[0], 0);
      NextNode(order, ranks[0]);
      DescentPath(order, keep, update, ranks);
      SearchArrives(order, score, val, update, ranks);
      FindableIsTarget(order, score, val);
    }

    method UnlinkBack(x: Node, ghost p: nat)
      requires 0 < p < |order| && order[p] == x && Distinct(order) && Mirror(order)
      requires tail == order[|order| - 1]
      requires 0 < x.height == |x.level| && x.level[0].forward == if p + 1 < |order| then order[p + 1] else null
      modifies this`tail, order`backward
      ensures Mirror(Removed(order, p))
      ensures var ms := Removed(order, p); tail == if |ms| == 1 then null else ms[|ms| - 1]
    {
      assert x.backward == if p == 1 then null else order[p - 1];
      if x.level[0].forward != null {
        x.level[0].forward.backward := x.backward;
      } else {
        tail := x.backward;
      }
      ghost var ms := Removed(order, p);
      forall i | 0 < i < |ms| ensures ms[i].backward == if i == 1 then null else ms[i - 1] {
        assert ms[i] == order[OldIndex(p, i)] && ms[i - 1] == order[OldIndex(p, i - 1)];
        assert old(order[OldIndex(p, i)].backward) == if OldIndex(p, i) == 1 then null else order[OldIndex(p, i) - 1];
      }
    }

    method Detach(x: Node, update: seq<Node>, ghost p: nat, ghost ranks: seq<nat>)
      requires Shape(order, levels) && Levels(order) && Sized(order) && Mirror(order) && tail == order[|order| - 1]
      requires 0 < p < |order| && order[p] == x && |update| == levels && Path(order, p - 1, update, ranks)
      requires 0 < x.height == |x.level| && x.level[0].forward == if p + 1 < |order| then order[p + 1] else null
      modifies this`tail, order
      ensures Levels(Removed(order, p)) && Sized(Removed(order, p)) && Mirror(Removed(order, p))
      ensures tail == if |order| == 2 then null else Removed(order, p)[|order| - 2]
    {
      ghost var ms := Removed(order, p);
      Unweave(order, levels, p, x, update, ranks);
      assert Levels(ms) && Sized(ms) && Mirror(order);
      UnlinkBack(x, p);
      assert Levels(ms) && Sized(ms);
    }

    method Trim()
      requires Valid()
      modifies this`levels
      ensures Valid() && 1 <= levels <= old(levels)
      ensures Topped()
    {
      while levels > 1 && head.level[levels - 1].forward == null
        invariant Valid() && 1 <= levels <= old(levels)
        decreases levels
      {
        assert LevelOk(order, levels - 1);
        assert LinkOk(order, 0, levels - 1, order[0].At(levels - 1));
        levels := levels - 1;
      }
      assert LevelOk(order, levels - 1) && LinkOk(order, 0, levels - 1, order[0].At(levels - 1));
    }

    /** DeleteNode: relink every level, then the backward chain, then lower level_.  The recorded length grows. */
    method DeleteNode(x: Node, update: seq<Node>, ghost p: nat, ghost ranks: seq<nat>)
      requires Valid() && 0 < p < |order| && order[p] == x
      requires |update| == levels && Path(order, p - 1, update, ranks)
      modifies this, repr
      ensures Valid() && order == Removed(old(order), p)
      ensures repr == old(repr) && head == old(head) && length == old(length) + 1 && Topped()
    {
      RemovedShape(order, levels, p);
      assert LevelOk(order, 0) && 0 < x.height == |x.level|;
      NextNode(order, p);
      Detach(x, update, p, ranks);
      order := Removed(order, p);
      length := length + 1;
      Trim();
    }

    /** Removes one node that holds the member with that score, if the search arrives at one. It does exactly when some
        such node has no taller tie behind it; otherwise nothing changes. */
    method Delete(score: real, val: string) returns (code: int)
      requires Valid()
      modifies this, repr
      ensures Valid() && head == old(head) && repr == old(repr)
      ensures code == 0 || code == -1
      ensures code == 0 <==> exists t :: Findable(old(Entries(order)), score, val, t)
      ensures code == 0 ==> Topped()
      ensures code == 0 ==> length == old(length) + 1 && RemovedOne(old(Entries(order)), score, val, Entries(order))
      ensures code == -1 ==> unchanged(this) && unchanged(repr)
    {
      ghost var es := Entries(order);
      ghost var ranks;
      var x, update;
      x, update, ranks := FindVictim(score, val);
      ghost var p := ranks[0] + 1;
      if x != null && score == x.score && x.val == val {
        assert Target(order, p, score, val) && order[p] == x && es[p - 1] == EntryOf(x);
        RemovedEntries(order, p);
        DeleteNode(x, update, p, ranks);
        code := 0;
      } else {
        code := -1;
      }
    }

    method RankWalk(score: real, val: string, start: Node, from: nat, l: nat) returns (x: Node, rank: nat, hit: bool)
      requires Valid() && l < levels && from < |order| && order[from] == start && start.height > l
      requires Missed(order, score, val, from, l + 1)
      ensures rank < |order| && order[rank] == x && x.height > l
      ensures if hit then rank > 0 && FirstRankable(order, score, val, rank) else Missed(order, score, val, rank, l)
    {
      x, rank, hit := start, from, false;
      assert LevelOk(order, l);
      while x.level[l].forward != null && (x.level[l].forward.score < score || x.level[l].forward.score == score)
        invariant rank < |order| && order[rank] == x && x.height > l
        invariant Missed(order, score, val, rank, l + 1)
        decreases |order| - rank
      {
        assert LinkOk(order, rank, l, x.At(l));
        ghost var was := rank;
        rank := rank + x.level[l].span;
        x := x.level[l].forward;
        MissedStep(order, score, val, was, rank, l);
        if x.val == val {
          hit := true;
          return;
        }
      }
      assert LinkOk(order, rank, l, x.At(l));
      MissedEnd(order, score, val, rank, l, x.At(l));
    }

    /** The 1-based position of a member, or 0 if the search misses it. */
    method GetRank(score: real, val: string) returns (rank: nat)
      requires Valid()
      ensures rank > 0 ==> FirstRankable(order, score, val, rank)
      ensures rank == 0 ==> forall t :: !Rankable(order, score, val, t)
    {
      var x: Node, at: nat, i: nat := head, 0, levels;
      while i > 0
        invariant 0 <= i <= levels && 0 <= at < |order| && order[at] == x && x.height >= i
        invariant Missed(order, score, val, at, i)
      {
        i := i - 1;
        var hit;
        x, at, hit := RankWalk(score, val, x, at, i);
        if hit {
          return at;
        }
      }
      forall t ensures !Rankable(order, score, val, t) {
        MissedAll(order, levels, score, val, at, t);
      }
      return 0;
    }

    /** The node of rank min (the first, for min = 0) if min <= max and there is one, else end. */
    method FirstInRangeByIdx(min: nat, max: nat) returns (it: Node?)
      requires Valid() && |order| > 1
      ensures var r := if min == 0 then 1 else min;
        it == if min <= max && r < |order| && r <= max then order[r] else null
    {
      if max < min || min > length {
        return null;
      }
      var x: Node, traversed: nat, i: nat := head, 0, levels;
      while i > 0
        invariant 0 <= i <= levels && traversed < |order| && order[traversed] == x && x.height >= i
        invariant traversed == 0 || traversed < min
        invariant i == 0 ==> (traversed + 1 < |order| ==> traversed + 1 >= min)
      {
        i := i - 1;
        assert LevelOk(order, i);
        while x.level[i].forward != null && traversed + x.level[i].span < min
          invariant traversed < |order| && order[traversed] == x && x.height > i
          invariant traversed == 0 || traversed < min
          decreases |order| - traversed
        {
          assert LinkOk(order, traversed, i, x.At(i));
          traversed := traversed + x.level[i].span;
          x := x.level[i].forward;
        }
        assert LinkOk(order, traversed, i, x.At(i));
        if i == 0 {
          NextNode(order, traversed);
        }
      }
      assert LevelOk(order, 0);
      NextNode(order, traversed);
      traversed := traversed + 1;
      it := x.level[0].forward;
      if it == null || traversed > max {
        return null;
      }
    }

    /** The first member with a score in the range spanned by the two bounds, or end if there is none. */
    method FirstInRangeByScore(min: real, max: real) returns (it: Node?)
      requires Valid() && |order| > 1
      ensures it == null ==> NoneIn(order, Low(min, max), High(min, max))
      ensures it != null ==> exists f :: FirstIn(order, Low(min, max), High(min, max), f) && it == order[f]
    {
      var lo, hi := Low(min, max), High(min, max);
      LastIsLargest(order);
      if lo > tail.score {
        return null;
      }
      var keep := (n: Node) => n.score < lo;
      assert Monotone(order, keep);
      var update, ranks := Descend(keep);
      DescentFindsCut(order, keep, update, ranks);
      assert LevelOk(order, 0) && Stopped(order, keep, From(ranks, 0), ranks[0], update[0], 0);
      NextNode(order, ranks[0]);
      CutBelow(order, keep, lo, ranks[0]);
      it := update[0].level[0].forward;
      assert it == order[ranks[0] + 1];
      if it.score > hi {
        return null;
      }
      assert FirstIn(order, lo, hi, ranks[0] + 1);
    }

    /** The last member with a score in the range, or end if there is none; except that the head is returned when
        every score is above the range and the range reaches down to the head's own score. */
    method LastInRangeByScore(min: real, max: real) returns (it: Node?)
      requires Valid() && |order| > 1
      ensures it == null || it == head ==> NoneIn(order, Low(min, max), High(min, max))
      ensures it == head <==> Low(min, max) <= -1.0 && High(min, max) < order[1].score
      ensures it != null && it != head ==> exists g :: LastIn(order, Low(min, max), High(min, max), g) && it == order[g]
    {
      var lo, hi := Low(min, max), High(min, max);
      LastIsLargest(order);
      if lo > tail.score {
        return null;
      } else if hi >= tail.score {
        assert LastIn(order, lo, hi, |order| - 1);
        return tail;
      }
      var keep := (n: Node) => n.score <= hi;
      assert Monotone(order, keep);
      var update, ranks := Descend(keep);
      DescentFindsCut(order, keep, update, ranks);
      assert Stopped(order, keep, From(ranks, 0), ranks[0], update[0], 0);
      CutAbove(order, keep, hi, ranks[0]);
      it := update[0];
      if it.score < lo {
        return null;
      }
      assert ranks[0] > 0 ==> LastIn(order, lo, hi, ranks[0]);
    }
  }
}
