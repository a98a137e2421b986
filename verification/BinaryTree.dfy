/**
  The unbalanced binary search tree with parent pointers: search, neighbours in key order, insertion, and
  deletion by transplanting subtrees.
 */
module BinaryTrees {
  import opened TreeShape

  class BNode {
    const data: int
    var left: BNode?
    var right: BNode?
    var parent: BNode?

    constructor (data: int)
      ensures this.data == data && left == right == parent == null
    {
      this.data := data;
      left, right, parent := null, null, null;
    }
  }

  type Ref = BNode?
  type Shape = Tree<Ref, ()>
  type Hole = Path<Ref, ()>
  type Heap = map<Ref, Cell<Ref, ()>>

  /** The links of a set of nodes, as a value. */
  ghost function Snap(s: set<BNode>): (h: Heap)
    reads s
    ensures h.Keys == s
    ensures forall n {:trigger h[n]} {:trigger n in h} :: n in s ==> h[n] == Cell(n.parent, n.left, n.right, ())
  {
    map n: Ref | n in s :: Cell(n.parent, n.left, n.right, ())
  }

  lemma SnapLess(s: set<BNode>, s': set<BNode>)
    requires s' <= s
    ensures Agree(Snap(s), Snap(s'), s')
  {
  }

  // ----- order

  /** Keys do not fall along the sequence. */
  predicate Ordered(s: seq<Ref>) {
    && (forall i {:trigger s[i]} :: 0 <= i < |s| ==> s[i] != null)
    && (forall i, j {:trigger s[i], s[j]} :: 0 <= i < j < |s| ==> s[i].data <= s[j].data)
  }

  /** Keys rise along the sequence. */
  predicate Ascending(s: seq<Ref>) {
    && (forall i {:trigger s[i]} :: 0 <= i < |s| ==> s[i] != null)
    && (forall i, j {:trigger s[i], s[j]} :: 0 <= i < j < |s| ==> s[i].data < s[j].data)
  }

  /** Everything before the hole has a smaller key, everything after it a larger one. */
  predicate Split(path: Hole, key: int) {
    && (forall n {:trigger n in Before(path)} :: n in Before(path) ==> n != null && n.data < key)
    && (forall n {:trigger n in After(path)} :: n in After(path) ==> n != null && n.data > key)
  }

  predicate KeyUpTo(x: Ref, y: Ref) {
    x != null && y != null && x.data <= y.data
  }

  lemma SplitDown(path: Hole, l: Shape, n: BNode, c: (), r: Shape, key: int)
    requires Ordered(Inorder(Plug(path, Node(l, n, c, r)))) && Split(path, key)
    ensures key < n.data ==> Split(GoLeft(path, n, c, r), key)
    ensures key > n.data ==> Split(GoRight(path, l, n, c), key)
  {
    PlugInorder(path, Node(l, n, c, r));
    AroundMiddle(Before(path), Inorder(l), n as Ref, Inorder(r), After(path), KeyUpTo);
  }

  /** The surroundings of a place within the surroundings of another. */
  function Join(outer: Hole, inner: Hole): Hole
    decreases inner
  {
    match inner
    case Top => outer
    case GoLeft(up, n, c, right) => GoLeft(Join(outer, up), n, c, right)
    case GoRight(up, left, n, c) => GoRight(Join(outer, up), left, n, c)
  }

  lemma {:induction false} PlugJoin(outer: Hole, inner: Hole, t: Shape)
    ensures Plug(Join(outer, inner), t) == Plug(outer, Plug(inner, t))
    decreases inner
  {
    match inner
    case Top =>
    case GoLeft(up, n, c, right) => PlugJoin(outer, up, Node(t, n, c, right));
    case GoRight(up, left, n, c) => PlugJoin(outer, up, Node(left, n, c, t));
  }

  /** Every node of a tree has a place in it. */
  lemma {:induction false} Locate(t: Shape, n: Ref) returns (path: Hole, s: Shape)
    requires n in Refs(t)
    ensures t == Plug(path, s) && s.Node? && s.n == n
  {
    if n == t.n {
      path, s := Top, t;
    } else if n in Refs(t.left) {
      var inner;
      inner, s := Locate(t.left, n);
      path := Join(GoLeft(Top, t.n, t.c, t.right), inner);
      PlugJoin(GoLeft(Top, t.n, t.c, t.right), inner, s);
    } else {
      var inner;
      inner, s := Locate(t.right, n);
      path := Join(GoRight(Top, t.left, t.n, t.c), inner);
      PlugJoin(GoRight(Top, t.left, t.n, t.c), inner, s);
    }
  }

  /** z is at position i, and y is the node before it. */
  predicate Leads(s: seq<Ref>, z: Ref, y: Ref, i: int) {
    0 <= i < |s| && s[i] == z && y == if i > 0 then s[i - 1] else null
  }

  /** z is at position i, and y is the node after it. */
  predicate Follows(s: seq<Ref>, z: Ref, y: Ref, i: int) {
    0 <= i < |s| && s[i] == z && y == if i + 1 < |s| then s[i + 1] else null
  }

  /** The nodes around t's root. */
  function Others(path: Hole, t: Shape): seq<Ref>
    requires t.Node?
  {
    Before(path) + Inorder(t.left) + Inorder(t.right) + After(path)
  }

  /** Where t's root is among them. */
  function RootAt(path: Hole, t: Shape): nat
    requires t.Node?
  {
    |Before(path)| + |Inorder(t.left)|
  }

  lemma Halves<T>(x: seq<T>, y: seq<T>, s: seq<T>)
    requires s == x + y
    ensures s[..|x|] == x && s[|x|..] == y
  {
  }

  lemma InorderAround(path: Hole, t: Shape)
    requires t.Node?
    ensures var s, i := Inorder(Plug(path, t)), RootAt(path, t);
      i < |s| && s[i] == t.n && s[i..] == [t.n] + Inorder(t.right) + After(path)
        && s[..i] == Before(path) + Inorder(t.left)
  {
    PlugInorder(path, t);
    var x, y := Before(path) + Inorder(t.left), [t.n] + Inorder(t.right) + After(path);
    Reassociate(Before(path), Inorder(t.left), [t.n], Inorder(t.right), After(path));
    Halves(x, y, Inorder(Plug(path, t)));
  }

  /** The heap after a transplant. */
  ghost predicate Moved(h: Heap, h': Heap, path: Hole, v: Ref, s: set<BNode>) {
    && Agree(h, h', s - {ParentRef(null, path), v})
    && (!path.Top? ==> path.n in h && path.n in h' && h'[path.n] == Redirected(path, h[path.n], v))
    && (v != null ==> v in h && v in h' && h'[v] == h[v].(p := ParentRef(null, path)))
  }

  /** The nodes in play are all different. */
  lemma Around(h: Heap, root: Ref, path: Hole, t: Shape, w: Shape)
    requires Holds(h, null, root, Plug(path, t)) && t.Node? && (w == t.left || w == t.right)
    ensures w.Node? ==> w.n in Refs(Plug(path, t)) && w.n != t.n && w.n != ParentRef(null, path)
    ensures Refs(Plug(path, t)) == PathRefs(path) + Refs(t) && null !in Refs(Plug(path, t))
  {
    Focus(h, null, root, path, t);
    ModelsRoot(h, null, root, null, Plug(path, t));
    assert w.Node? ==> w.n in Refs(w) && Refs(w) <= Refs(t);
    assert !path.Top? ==> path.n in PathRefs(path);
  }

  lemma MovedLess(h: Heap, h': Heap, h'': Heap, path: Hole, v: Ref, s: set<BNode>, u: BNode)
    requires Moved(h, h', path, v, s) && Agree(h', h'', s - {u})
    requires v != null ==> v in s - {u}
    requires !path.Top? ==> path.n in s - {u}
    ensures Moved(h, h'', path, v, s - {u})
  {
    assert v != null ==> v in s - {u};
    forall n | n in s - {u} - {ParentRef(null, path), v} ensures n in h && n in h'' && h[n] == h''[n] {
      assert n in s - {u};
      assert n in s - {ParentRef(null, path), v};
    }
  }

  /** The sets in play when the only child w of t takes the place of t. */
  lemma LiftedSets(path: Hole, t: Shape, w: Shape, s: set<Ref>)
    requires Distinct(t) && Refs(t) !! PathRefs(path) && t.Node? && s == PathRefs(path) + Refs(t) && null !in s
    requires (t.left == Leaf && w == t.right) || (t.right == Leaf && w == t.left)
    ensures Distinct(w) && Refs(w) !! PathRefs(path) && PathRefs(path) + Refs(w) == s - {t.n}
    ensures Refs(w) - {RootRef(null, w)} <= s - {t.n} - {ParentRef(null, path), RootRef(null, w)}
    ensures PathRefs(path) - {ParentRef(null, path)} <= s - {t.n} - {ParentRef(null, path), RootRef(null, w)}
  {
    assert Refs(t) == Refs(w) + {t.n} && t.n !in Refs(w);
    assert w.Node? ==> w.n in Refs(w);
    assert !path.Top? ==> path.n in PathRefs(path);
  }

  lemma ChildModels(h: Heap, parent: Ref, t: Shape, w: Shape)
    requires t.Node? && Models(h, null, t.n, parent, t) && (w == t.left || w == t.right)
    ensures Models(h, null, RootRef(null, w), t.n, w)
  {
    ModelsRoot(h, null, h[t.n].left, t.n, t.left);
    ModelsRoot(h, null, h[t.n].right, t.n, t.right);
  }

  lemma AgreeOn(h: Heap, h': Heap, s: set<Ref>, u: set<Ref>)
    requires Agree(h, h', s) && u <= s
    ensures Agree(h, h', u)
  {
  }

  /** A transplant of the only child takes a node out of the tree. */
  lemma Lifted(h: Heap, h': Heap, root: Ref, root': Ref, path: Hole, t: Shape, w: Shape, s: set<BNode>)
    requires Holds(h, null, root, Plug(path, t)) && s == Refs(Plug(path, t)) && t.Node?
    requires (t.left == Leaf && w == t.right) || (t.right == Leaf && w == t.left)
    requires Moved(h, h', path, RootRef(null, w), s - {t.n})
    requires root' == if path.Top? then RootRef(null, w) else root
    ensures Holds(h', null, root', Plug(path, w)) && Refs(Plug(path, w)) == s - {t.n}
  {
    Focus(h, null, root, path, t);
    ModelsRoot(h, null, root, null, Plug(path, t));
    LiftedSets(path, t, w, s);
    ChildModels(h, ParentRef(null, path), t, w);
    var u: set<Ref> := s - {t.n} - {ParentRef(null, path), RootRef(null, w)};
    AgreeOn(h, h', u, Refs(w) - {RootRef(null, w)});
    AgreeOn(h, h', u, PathRefs(path) - {ParentRef(null, path)});
    Reparent(h, h', null, t.n, ParentRef(null, path), w);
    Replace(h, h', null, root, root', path, t, w);
  }

  /** The heap once y stands where the path leads, with rl and rr below it; rl knows. */
  ghost predicate Installed(h: Heap, h': Heap, root: Ref, root': Ref, path: Hole, y: Ref, rl: Ref, rr: Ref,
                            s: set<BNode>) {
    && root' == (if path.Top? then y else root)
    && y in h' && h'[y] == Cell<Ref, ()>.Cell(ParentRef(null, path), rl, rr, ())
    && rl in h && rl in h' && h'[rl] == h[rl].(p := y)
    && (!path.Top? ==> path.n in h && path.n in h' && h'[path.n] == Redirected(path, h[path.n], y))
    && Agree(h, h', s - {ParentRef(null, path), y, rl})
  }

  lemma InstalledLess(h: Heap, h': Heap, h'': Heap, root: Ref, root': Ref, path: Hole, y: Ref, rl: Ref, rr: Ref,
                      s: set<BNode>, s': set<BNode>, keys: set<Ref>)
    requires Installed(h, h', root, root', path, y, rl, rr, s) && s' <= s && s' <= keys && Agree(h', h'', keys)
    requires y in keys && rl in keys && (!path.Top? ==> path.n in keys)
    ensures Installed(h, h'', root, root', path, y, rl, rr, s')
  {
    forall n | n in s' - {ParentRef(null, path), y, rl} ensures n in h && n in h'' && h[n] == h''[n] {
      assert n in s - {ParentRef(null, path), y, rl} && n in keys;
    }
  }

  /** Around a node with two children: what is apart from what. */
  lemma TwoChildren(path: Hole, l: Shape, z: Ref, c: (), r: Shape)
    requires var t := Node(l, z, c, r); Distinct(t) && Refs(t) !! PathRefs(path)
    ensures Distinct(l) && Distinct(r) && Refs(l) !! Refs(r) && z !in Refs(l) + Refs(r) + PathRefs(path)
    ensures Refs(l) !! PathRefs(path) && Refs(r) !! PathRefs(path)
    ensures Refs(Node(l, z, c, r)) == Refs(l) + {z} + Refs(r)
    ensures (l.Node? ==> l.n in Refs(l)) && (r.Node? ==> r.n in Refs(r)) && (!path.Top? ==> path.n in PathRefs(path))
  {
  }

  lemma NodeModels(h: Heap, parent: Ref, l: Shape, y: Ref, r: Shape)
    requires y != null && y in h && h[y] == Cell<Ref, ()>.Cell(parent, RootRef(null, l), RootRef(null, r), ())
    requires Models(h, null, RootRef(null, l), y, l) && Models(h, null, RootRef(null, r), y, r)
    ensures Models(h, null, y, parent, Node(l, y, (), r))
  {
  }

  /** An installed y is in the place of z. */
  lemma Supplanted(h: Heap, h': Heap, root: Ref, root': Ref, path: Hole, l: Shape, z: Ref, c: (), r: Shape, y: BNode,
                   s: set<BNode>)
    requires Holds(h, null, root, Plug(path, Node(l, z, c, r))) && s == Refs(Plug(path, Node(l, z, c, r)))
    requires y !in s && l.Node? && r.Node?
    requires Installed(h, h', root, root', path, y, l.n, r.n, s - {z, r.n})
    requires r.n in h && r.n in h' && h'[r.n] == h[r.n].(p := y)
    ensures Holds(h', null, root', Plug(path, Node(l, y, (), r)))
    ensures Refs(Plug(path, Node(l, y, (), r))) == s - {z} + {y}
  {
    var t, t' := Node(l, z, c, r), Node(l, y, (), r);
    Focus(h, null, root, path, t);
    TwoChildren(path, l, z, c, r);
    ModelsRoot(h, null, root, null, Plug(path, t));
    ChildModels(h, ParentRef(null, path), t, l);
    ChildModels(h, ParentRef(null, path), t, r);
    var u: set<Ref> := s - {z, r.n} - {ParentRef(null, path), y, l.n};
    AgreeOn(h, h', u, Refs(l) - {l.n});
    AgreeOn(h, h', u, Refs(r) - {r.n});
    AgreeOn(h, h', u, PathRefs(path) - {ParentRef(null, path)});
    Reparent(h, h', null, z, y, l);
    Reparent(h, h', null, z, y, r);
    NodeModels(h', ParentRef(null, path), l, y, r);
    assert Refs(t') == Refs(l) + {y} + Refs(r);
    Replace(h, h', null, root, root', path, t, t');
  }

  /** That, seen from the heap of the tree's own nodes, before and after. */
  lemma Supplanting(h0: Heap, h: Heap, h': Heap, h'': Heap, root: Ref, root': Ref, path: Hole, t: Shape, y: BNode,
                    s: set<BNode>)
    requires Holds(h0, null, root, Plug(path, t)) && s == Refs(Plug(path, t)) && Agree(h0, h, s)
    requires t.Node? && t.left.Node? && t.right.Node? && y !in s
    requires {t.left.n, t.right.n} <= s - {t.n} && (!path.Top? ==> path.n in s - {t.n})
    requires Installed(h, h', root, root', path, y, t.left.n, t.right.n, s + {y} - {t.right.n})
    requires t.right.n in h && t.right.n in h' && h'[t.right.n] == h[t.right.n].(p := y)
    requires Agree(h', h'', s - {t.n} + {y})
    ensures var t' := Node(t.left, y, (), t.right);
      Holds(h'', null, root', Plug(path, t')) && Refs(Plug(path, t')) == s - {t.n} + {y}
  {
    var s' := s - {t.n} + {y};
    ModelsFrame(h0, h, null, root, null, Plug(path, t));
    InstalledLess(h, h', h'', root, root', path, y, t.left.n, t.right.n,
      s + {y} - {t.right.n}, s - {t.n, t.right.n}, s');
    assert t.right.n in s';
    Supplanted(h, h'', root, root', path, t.left, t.n, t.c, t.right, y, s);
  }

  /** The sets in play when the right child y of z takes its place. */
  lemma RaisedSets(path: Hole, l: Shape, z: Ref, c: (), y: Ref, cy: (), r: Shape, s: set<Ref>)
    requires var t := Node(l, z, c, Node(Leaf, y, cy, r));
      Distinct(t) && Refs(t) !! PathRefs(path) && s == PathRefs(path) + Refs(t)
    requires l.Node? && null !in s
    ensures var u := s - {z} - {ParentRef(null, path), y, l.n};
      Refs(l) - {l.n} <= u && Refs(r) <= u && PathRefs(path) - {ParentRef(null, path)} <= u
    ensures var t' := Node(l, y, (), r);
      Distinct(t') && Refs(t') !! PathRefs(path) && PathRefs(path) + Refs(t') == s - {z}
  {
    var w := Node(Leaf, y, cy, r);
    TwoChildren(path, l, z, c, w);
    assert Refs(w) == {y} + Refs(r) && y !in Refs(r) && Distinct(r);
    assert Refs(Node(l, y, (), r)) == Refs(l) + {y} + Refs(r);
  }

  /** A right child installed there is in the place of its parent. */
  lemma Raised(h: Heap, h': Heap, root: Ref, root': Ref, path: Hole, t: Shape, s: set<BNode>)
    requires Holds(h, null, root, Plug(path, t)) && s == Refs(Plug(path, t))
    requires t.Node? && t.left.Node? && t.right.Node? && t.right.left == Leaf
    requires Installed(h, h', root, root', path, t.right.n, t.left.n, RootRef(null, t.right.right), s - {t.n})
    ensures var t' := Node(t.left, t.right.n, (), t.right.right);
      Holds(h', null, root', Plug(path, t')) && Refs(Plug(path, t')) == s - {t.n}
  {
    var l, y, r := t.left, t.right.n, t.right.right;
    var t' := Node(l, y, (), r);
    Focus(h, null, root, path, t);
    ModelsRoot(h, null, root, null, Plug(path, t));
    RaisedSets(path, l, t.n, t.c, y, t.right.c, r, s);
    ChildModels(h, ParentRef(null, path), t, l);
    ChildModels(h, ParentRef(null, path), t, t.right);
    ChildModels(h, t.n, t.right, r);
    var u: set<Ref> := s - {t.n} - {ParentRef(null, path), y, l.n};
    AgreeOn(h, h', u, Refs(l) - {l.n});
    AgreeOn(h, h', u, Refs(r));
    AgreeOn(h, h', u, PathRefs(path) - {ParentRef(null, path)});
    Reparent(h, h', null, t.n, y, l);
    ModelsFrame(h, h', null, RootRef(null, r), y, r);
    NodeModels(h', ParentRef(null, path), l, y, r);
    Replace(h, h', null, root, root', path, t, t');
  }

  function Dropped(s: seq<Ref>, i: nat): seq<Ref>
    requires i < |s|
  {
    s[..i] + s[i + 1..]
  }

  /** x is at position i, and rest is what else there is. */
  predicate Lacks(s: seq<Ref>, i: nat, x: Ref, rest: seq<Ref>) {
    i < |s| && s[i] == x && rest == Dropped(s, i)
  }

  lemma DropMiddle(a: seq<Ref>, b: seq<Ref>, n: Ref, d: seq<Ref>, e: seq<Ref>, m: seq<Ref>, s: seq<Ref>)
    requires m == b + [n] + d && s == a + m + e
    ensures Lacks(s, |a| + |b|, n, a + b + d + e)
  {
    Reassociate(a, b, [n], d, e);
    Halves(a + b, [n] + d + e, s);
    assert s[|a| + |b| + 1..] == s[|a| + |b|..][1..];
    assert ([n] + d + e)[1..] == d + e;
    assert a + b + (d + e) == a + b + d + e;
  }

  /** The pieces of the sequence of nodes. */
  lemma RootParts(path: Hole, t: Shape)
      returns (a: seq<Ref>, b: seq<Ref>, d: seq<Ref>, e: seq<Ref>, m: seq<Ref>, s: seq<Ref>)
    requires t.Node?
    ensures m == b + [t.n] + d && s == a + m + e && s == Inorder(Plug(path, t))
    ensures |a| + |b| == RootAt(path, t) && a + b + d + e == Others(path, t)
  {
    a, b, d, e, m, s := Before(path), Inorder(t.left), Inorder(t.right), After(path), Inorder(t),
      Inorder(Plug(path, t));
    PlugInorder(path, t);
  }

  /** What is left of the sequence of nodes when t's root goes and both its subtrees stay. */
  lemma DropRoot(path: Hole, t: Shape)
    requires t.Node?
    ensures Lacks(Inorder(Plug(path, t)), RootAt(path, t), t.n, Others(path, t))
  {
    var a, b, d, e, m, s := RootParts(path, t);
    DropMiddle(a, b, t.n, d, e, m, s);
  }

  /** With the only child in the place of t's root, the root is what is missing. */
  lemma OnlyChild(path: Hole, t: Shape, w: Shape)
    requires t.Node? && ((t.left == Leaf && w == t.right) || (t.right == Leaf && w == t.left))
    ensures Inorder(Plug(path, w)) == Others(path, t)
  {
    PlugInorder(path, w);
    assert Before(path) + Inorder(t.left) + Inorder(t.right) == Before(path) + Inorder(w);
  }

  lemma FirstOut(y: Ref, b: seq<Ref>, c: seq<Ref>)
    ensures [] + ([] + [y] + b) + c == [y] + ([] + b + c)
  {
  }

  lemma Regroup(a: seq<Ref>, b: seq<Ref>, y: Ref, d: seq<Ref>, e: seq<Ref>)
    ensures a + (b + [y] + d) + e == a + b + ([y] + d) + e
  {
  }

  /** With the next node in the place of t's, t's is what is missing. */
  lemma NextInPlace(path: Hole, t: Shape, inner: Hole, s: Shape)
    requires t.Node? && t.right == Plug(inner, s) && s.Node? && s.left == Leaf && Before(inner) == []
    ensures Inorder(Plug(path, Node(t.left, s.n, (), Plug(inner, s.right)))) == Others(path, t)
  {
    var r := Plug(inner, s.right);
    PlugInorder(inner, s);
    PlugInorder(inner, s.right);
    FirstOut(s.n, Inorder(s.right), After(inner));
    PlugInorder(path, Node(t.left, s.n, (), r));
    Regroup(Before(path), Inorder(t.left), s.n, Inorder(r), After(path));
  }

  lemma JoinParent(outer: Hole, inner: Hole)
    ensures ParentRef(null, Join(outer, inner)) == if inner.Top? then ParentRef(null, outer) else inner.n
  {
  }

  lemma {:induction false} PlugNode(inner: Hole, t: Shape)
    requires !inner.Top?
    ensures Plug(inner, t).Node?
  {
    PlugIsNode(inner.up,
      if inner.GoLeft? then Node(t, inner.n, inner.c, inner.right) else Node(inner.left, inner.n, inner.c, t));
  }

  /** The root of a tree is not in its right subtree. */
  lemma NotAbove(t: Shape, inner: Hole, s: Shape)
    requires t.Node? && Distinct(t) && t.right == Plug(inner, s)
    ensures (!inner.Top? ==> inner.n != t.n) && (s.Node? ==> s.n != t.n)
  {
    PlugDistinct(inner, s);
    var r := t.right;
    assert t.n !in Refs(r);
    assert !inner.Top? ==> inner.n in PathRefs(inner) && inner.n in Refs(r);
    assert s.Node? ==> s.n in Refs(s) && s.n in Refs(r);
  }

  predicate Has(s: seq<Ref>, data: int) {
    exists i :: 0 <= i < |s| && s[i] != null && s[i].data == data
  }

  lemma OrderedDropped(s: seq<Ref>, i: nat)
    requires i < |s|
    ensures Ordered(s) ==> Ordered(Dropped(s, i))
    ensures Ascending(s) ==> Ascending(Dropped(s, i))
  {
    var s' := Dropped(s, i);
    assert forall k {:trigger s'[k]} :: 0 <= k < |s'| ==> s'[k] == s[if k < i then k else k + 1];
  }

  /** Everything before the hole has no larger key, everything after it a larger one. */
  predicate WeakSplit(path: Hole, key: int) {
    && (forall n {:trigger n in Before(path)} :: n in Before(path) ==> n != null && n.data <= key)
    && (forall n {:trigger n in After(path)} :: n in After(path) ==> n != null && n.data > key)
  }

  lemma WeakSplitDown(path: Hole, l: Shape, n: BNode, c: (), r: Shape, key: int)
    requires Ordered(Inorder(Plug(path, Node(l, n, c, r)))) && WeakSplit(path, key)
    ensures if key < n.data then WeakSplit(GoLeft(path, n, c, r), key) else WeakSplit(GoRight(path, l, n, c), key)
  {
    PlugInorder(path, Node(l, n, c, r));
    AroundMiddle(Before(path), Inorder(l), n as Ref, Inorder(r), After(path), KeyUpTo);
  }

  /** Search is right about what it finds. */
  lemma Found(path: Hole, t: Shape, data: int)
    requires t.Leaf? ==> Split(path, data)
    requires t.Node? ==> t.n != null && t.n.data == data
    ensures t.Node? <==> Has(Inorder(Plug(path, t)), data)
    ensures t.Node? ==> t.n in Inorder(Plug(path, t))
  {
    var s := Inorder(Plug(path, t));
    if t.Node? {
      InorderAround(path, t);
    } else {
      PlugInorder(path, t);
      forall i | 0 <= i < |s| ensures s[i] != null && s[i].data != data {
        assert s[i] in Before(path) || s[i] in After(path);
      }
    }
  }

  /** Where the descent for a key falls off the tree. */
  function Fall(t: Shape, data: int, path: Hole): Hole
    decreases t
  {
    match t
    case Leaf => path
    case Node(l, n, c, r) =>
      if n == null then path
      else if data < n.data then Fall(l, data, GoLeft(path, n, c, r)) else Fall(r, data, GoRight(path, l, n, c))
  }

  /** Where a new node goes: into the hole, or, below a node with the same key, into the place of its left subtree. */
  function Spot(path: Hole, twin: bool): (Hole, Shape) {
    if twin && path.GoRight? then (GoLeft(path.up, path.n, path.c, Leaf), path.left) else (path, Leaf)
  }

  /** The tree with a new node in its place, and the nodes that were there. */
  function Grown(t: Shape, z: BNode): (Shape, set<Ref>) {
    var path := Fall(t, z.data, Top);
    var (path', was) := Spot(path, path.GoRight? && path.n != null && path.n.data == z.data);
    (Plug(path', Node(Leaf, z, (), Leaf)), Refs(was))
  }

  /** No node behind has the same key. */
  predicate LastOfKey(s: seq<Ref>, e: BNode) {
    exists i {:trigger s[i]} :: 0 <= i < |s| && s[i] == e
      && forall j {:trigger s[j]} :: i < j < |s| ==> s[j] != null && s[j].data > e.data
  }

  lemma TwinIsLast(path: Hole, data: int)
    requires path.GoRight? && path.n != null && path.n.data == data && WeakSplit(path, data)
    ensures LastOfKey(Inorder(Plug(path, Leaf)), path.n)
  {
    PlugInorder(path, Leaf);
    var s, b := Inorder(Plug(path, Leaf)), Before(path);
    assert s == b + After(path);
    assert s[|b| - 1] == path.n;
    forall j | |b| - 1 < j < |s| ensures s[j] != null && s[j].data > data {
      assert s[j] == After(path)[j - |b|] && s[j] in After(path);
    }
  }

  lemma SpotFacts(path: Hole, twin: bool)
    ensures var (path', t) := Spot(path, twin);
      Plug(path', t) == Plug(path, Leaf) && ParentRef(null, path') == ParentRef(null, path)
    ensures Refs(Spot(path, twin).1) == {} <==> Spot(path, twin).1 == Leaf
  {
    var t := Spot(path, twin).1;
    assert t.Node? ==> t.n in Refs(t);
  }

  /** The new node is in the tree; what was in its place is not. */
  lemma Hung(h: Heap, h': Heap, h'': Heap, root: Ref, root': Ref, path: Hole, t: Shape, z: BNode, s: set<BNode>)
    requires Holds(h, null, root, Plug(path, t)) && s == Refs(Plug(path, t)) && z !in s
    requires Agree(h, h', s - {ParentRef(null, path)}) && z in h'
    requires h'[z] == Cell<Ref, ()>.Cell(ParentRef(null, path), null, null, ())
    requires !path.Top? ==> path.n in h && path.n in h' && h'[path.n] == Redirected(path, h[path.n], z)
    requires root' == if path.Top? then z else root
    requires Agree(h', h'', s - Refs(t) + {z})
    ensures var zt := Node(Leaf, z, (), Leaf);
      Holds(h'', null, root', Plug(path, zt)) && Refs(Plug(path, zt)) == s - Refs(t) + {z}
  {
    var zt: Shape := Node(Leaf, z, (), Leaf);
    Focus(h, null, root, path, t);
    assert PathRefs(path) == s - Refs(t);
    assert z in s - Refs(t) + {z};
    assert !path.Top? ==> path.n in PathRefs(path);
    forall n | n in PathRefs(path) - {ParentRef(null, path)} ensures n in h && n in h'' && h[n] == h''[n] {
      assert n in s - {ParentRef(null, path)} && n in s - Refs(t) + {z};
    }
    assert Models(h'', null, z, ParentRef(null, path), zt);
    Replace(h, h'', null, root, root', path, t, zt);
  }

  /** The node before a hole on the left of another has a right child. */
  lemma {:induction false} HasRight(h: Heap, root: Ref, child: Ref, path: Hole)
    requires ModelsPath(h, null, root, child, path) && child != null && Before(path) != []
    ensures var e := Before(path)[|Before(path)| - 1]; e in h && h[e].right != null
    decreases path
  {
    match path
    case GoLeft(up, n, _, _) => HasRight(h, root, n, up);
    case GoRight(_, _, n, _) =>
  }

  /** The last node with the key is the last one before the larger ones. */
  lemma EndsWith(b: seq<Ref>, c: seq<Ref>, e: BNode)
    requires LastOfKey(b + c, e) && (b != [] ==> b[|b| - 1] != null && b[|b| - 1].data <= e.data)
    requires forall n {:trigger n in c} :: n in c ==> n != null && n.data > e.data
    ensures b != [] && b[|b| - 1] == e
  {
    var s := b + c;
    var k :| 0 <= k < |s| && s[k] == e
      && forall j {:trigger s[j]} :: k < j < |s| ==> s[j] != null && s[j].data > e.data;
    forall j | |b| <= j < |s| ensures s[j] != null && s[j].data > e.data {
      assert s[j] == c[j - |b|] && c[j - |b|] in c;
    }
    assert k < |b| && s[|b| - 1] == b[|b| - 1];
  }

  /** The last node with the key, if it has no right child, is where the descent ends. */
  lemma OnlyTwin(h: Heap, root: Ref, path: Hole, e: BNode, data: int)
    requires Holds(h, null, root, Plug(path, Leaf)) && WeakSplit(path, data)
    requires e.data == data && LastOfKey(Inorder(Plug(path, Leaf)), e) && e in h && h[e].right == null
    ensures path.GoRight? && path.n == e
  {
    Focus(h, null, root, path, Leaf);
    PlugInorder(path, Leaf);
    var b, c := Before(path), After(path);
    assert Inorder(Plug(path, Leaf)) == b + c;
    assert b != [] ==> b[|b| - 1] in b;
    EndsWith(b, c, e);
    if path.GoLeft? {
      HasRight(h, root, path.n, path.up);
    }
  }

  /** A leaf added in a place that was empty. */
  lemma LeafAdded(path: Hole, z: BNode)
    ensures var s, i := Inorder(Plug(path, Node(Leaf, z, (), Leaf))), |Before(path)|;
      i < |s| && s[i] == z && Dropped(s, i) == Inorder(Plug(path, Leaf)) && s == Before(path) + [z] + After(path)
  {
    var zt: Shape := Node(Leaf, z, (), Leaf);
    assert Inorder(zt) == [z] && Inorder(zt.left) == [];
    PlugInorder(path, zt);
    DropRoot(path, zt);
    OnlyChild(path, zt, Leaf);
  }

  lemma Clash(s0: seq<Ref>, s: seq<Ref>, i: nat, z: BNode)
    requires i < |s| && s[i] == z && Dropped(s, i) == s0 && Has(s0, z.data)
    ensures !Ascending(s)
  {
    var k :| 0 <= k < |s0| && s0[k] != null && s0[k].data == z.data;
    var k' := if k < i then k else k + 1;
    assert s[k'] == s0[k];
  }

  lemma Fits(a: seq<Ref>, z: BNode, b: seq<Ref>)
    requires Ordered(a + b)
    requires forall n {:trigger n in a} :: n in a ==> n != null && n.data <= z.data
    requires forall n {:trigger n in b} :: n in b ==> n != null && n.data > z.data
    ensures Ordered(a + [z] + b)
    ensures Ascending(a + b) && !Has(a + b, z.data) ==> Ascending(a + [z] + b)
  {
    var s, s0 := a + [z] + b, a + b;
    forall k | 0 <= k < |a| ensures s[k] == s0[k] && s[k] != null && s[k].data <= z.data {
      assert s0[k] == a[k] && a[k] in a;
    }
    forall k | |a| < k < |s| ensures s[k] == s0[k - 1] && s[k] != null && s[k].data > z.data {
      assert s0[k - 1] == b[k - |a| - 1] && b[k - |a| - 1] in b;
    }
    assert s[|a|] == z;
    forall i, j | 0 <= i < j < |s|
      ensures s[i].data <= s[j].data && (Ascending(s0) && !Has(s0, z.data) ==> s[i].data < s[j].data)
    {
      if i != |a| && j != |a| {
        assert s0[if i < |a| then i else i - 1].data <= s0[if j < |a| then j else j - 1].data;
      }
    }
  }

  lemma PlainOrder(path: Hole, z: BNode)
    requires Ordered(Inorder(Plug(path, Leaf))) && WeakSplit(path, z.data)
    ensures var s0, s := Inorder(Plug(path, Leaf)), Inorder(Plug(path, Node(Leaf, z, (), Leaf)));
      Ordered(s) && (Ascending(s) <==> Ascending(s0) && !Has(s0, z.data))
  {
    var s0, s := Inorder(Plug(path, Leaf)), Inorder(Plug(path, Node(Leaf, z, (), Leaf)));
    LeafAdded(path, z);
    PlugInorder(path, Leaf);
    assert s0 == Before(path) + After(path);
    Fits(Before(path), z, After(path));
    if Has(s0, z.data) {
      Clash(s0, s, |Before(path)|, z);
    }
    OrderedDropped(s, |Before(path)|);
  }

  lemma MiddleOut(a: seq<Ref>, l: seq<Ref>, n: BNode, e: seq<Ref>)
    requires Ordered(a + (l + [n] + []) + e)
    ensures Ordered(a + ([n] + e))
  {
    var s, s' := a + (l + [n] + []) + e, a + ([n] + e);
    assert forall k {:trigger s'[k]} :: 0 <= k < |s'| ==> s'[k] == s[if k < |a| then k else k + |l|];
  }

  lemma Between(a: seq<Ref>, z: BNode, n: BNode, e: seq<Ref>)
    requires Ordered(a + ([n] + e)) && z.data == n.data
    requires forall m {:trigger m in a} :: m in a ==> m != null && m.data <= z.data
    ensures Ordered(a + [z] + ([n] + e))
  {
    var f := [n] + e;
    var s0, s := a + f, a + [z] + f;
    assert s0[|a|] == f[0] == n;
    forall k | 0 <= k < |s| && k != |a| ensures s[k] != null && s[k] == s0[if k < |a| then k else k - 1] {
      assert s0[if k < |a| then k else k - 1] != null;
      if k < |a| {
        assert s[k] == a[k] == s0[k];
      } else {
        assert s[k] == f[k - |a| - 1] == s0[k - 1];
      }
    }
    forall i, j | 0 <= i < j < |s| ensures s[i] != null && s[j] != null && s[i].data <= s[j].data {
      if j == |a| {
        assert s[i] == a[i] && a[i] in a;
      } else if i == |a| {
        assert s0[|a|].data <= s0[j - 1].data;
      } else {
        assert s0[if i < |a| then i else i - 1].data <= s0[if j < |a| then j else j - 1].data;
      }
    }
  }

  /** Below a node with the same key, the new node stands right before it. */
  lemma TwinOrder(path: Hole, z: BNode)
    requires path.GoRight? && path.n != null && path.n.data == z.data
    requires Ordered(Inorder(Plug(path, Leaf))) && WeakSplit(path, z.data)
    ensures Ordered(Inorder(Plug(GoLeft(path.up, path.n, path.c, Leaf), Node(Leaf, z, (), Leaf))))
  {
    var path' := GoLeft(path.up, path.n, path.c, Leaf);
    LeafAdded(path', z);
    PlugInorder(path, Leaf);
    var a, l, e := Before(path.up), Inorder(path.left), After(path.up);
    assert Inorder(Plug(path, Leaf)) == a + (l + [path.n] + []) + e;
    MiddleOut(a, l, path.n, e);
    assert Before(path') == a && After(path') == [path.n] + [] + e;
    assert [path.n] + [] + e == [path.n] + e;
    forall n | n in a ensures n != null && n.data <= z.data {
      assert n in Before(path);
    }
    Between(a, z, path.n, e);
  }

  lemma Twins(path: Hole, z: BNode)
    requires path.GoLeft? && path.n != null && path.n.data == z.data
    ensures !Ascending(Inorder(Plug(path, Node(Leaf, z, (), Leaf))))
  {
    var zt: Shape := Node(Leaf, z, (), Leaf);
    InorderAround(path, zt);
    var s, i := Inorder(Plug(path, zt)), |Before(path)|;
    assert s[i] == z && s[i + 1] == s[i..][1] == path.n;
  }

  /** What insertion does to the order. */
  lemma InsertedOrder(path: Hole, z: BNode, twin: bool)
    requires Ordered(Inorder(Plug(path, Leaf))) && WeakSplit(path, z.data)
    requires !path.Top? ==> path.n != null && (path.GoLeft? <==> z.data < path.n.data)
    requires twin <==> !path.Top? && z.data == path.n.data
    ensures var (path', t) := Spot(path, twin);
      var s0, s := Inorder(Plug(path, Leaf)), Inorder(Plug(path', Node(Leaf, z, (), Leaf)));
      && Ordered(s) && (Ascending(s) <==> Ascending(s0) && !Has(s0, z.data))
      && (t == Leaf ==> |Before(path')| < |s| && s[|Before(path')|] == z && Dropped(s, |Before(path')|) == s0)
  {
    var (path', t) := Spot(path, twin);
    SpotFacts(path, twin);
    LeafAdded(path', z);
    if twin {
      Twins(path', z);
      InorderAround(path.up, Node(path.left, path.n, path.c, Leaf));
      TwinOrder(path, z);
    } else {
      PlainOrder(path, z);
    }
  }

  class BinaryTree {
    var root: BNode?
    ghost var repr: set<BNode>
    ghost var tree: Shape

    ghost predicate Linked()
      reads this, repr
    {
      Refs(tree) == repr && Holds(Snap(repr), null, root, tree)
    }

    ghost predicate Valid()
      reads this, repr
    {
      Linked() && Ordered(Inorder(tree))
    }

    constructor ()
      ensures Valid() && tree == Leaf && repr == {}
    {
      root, repr, tree := null, {}, Leaf;
    }

    /** What the heap says of a node in its place. */
    lemma Place(path: Hole, t: Shape)
      requires Linked() && tree == Plug(path, t) && t.Node?
      ensures t.n in repr && t.n.parent == ParentRef(null, path)
      ensures t.n.left == RootRef(null, t.left) && t.n.right == RootRef(null, t.right)
      ensures null !in Refs(tree) && Refs(t) <= repr
      ensures !path.Top? ==>
        && path.n in repr && path.n != t.n
        && (path.n.left == t.n <==> path.GoLeft?) && (path.n.right == t.n <==> path.GoRight?)
    {
      var h := Snap(repr);
      Focus(h, null, root, path, t);
      ModelsRoot(h, null, root, null, tree);
      ModelsRoot(h, null, h[t.n].left, t.n, t.left);
      ModelsRoot(h, null, h[t.n].right, t.n, t.right);
      if !path.Top? {
        ParentFacts(h, null, root, path, t);
        ModelsRoot(h, null, if path.GoLeft? then h[path.n].right else h[path.n].left, path.n, Sibling(path));
        assert RootRef(null, Sibling(path)) != t.n;
      }
    }

    /** Search: the node with the key, or null when there is none. */
    method Search(data: int) returns (x: BNode?, ghost path: Hole, ghost t: Shape)
      requires Valid()
      ensures tree == Plug(path, t) && x == RootRef(null, t)
      ensures x != null ==> x in repr && x.data == data && x in Inorder(tree)
      ensures x == null ==> t == Leaf && Split(path, data)
      ensures x != null <==> Has(Inorder(tree), data)
    {
      x := root;
      path, t := Top, tree;
      ModelsRoot(Snap(repr), null, root, null, tree);
      while x != null && x.data != data
        invariant tree == Plug(path, t) && x == RootRef(null, t) && Split(path, data)
        invariant x != null ==> x in repr
        decreases t
      {
        Place(path, t);
        SplitDown(path, t.left, x, t.c, t.right, data);
        if data < x.data {
          path, t := GoLeft(path, x, t.c, t.right), t.left;
          x := x.left;
        } else {
          path, t := GoRight(path, t.left, x, t.c), t.right;
          x := x.right;
        }
      }
      PlugDistinct(path, t);
      Found(path, t, data);
    }

    /** Min of a subtree: the node at the end of its left links. */
    method Min(x0: BNode, ghost path: Hole, ghost t: Shape) returns (x: BNode, ghost inner: Hole, ghost s: Shape)
      requires Linked() && tree == Plug(path, t) && t.Node? && t.n == x0
      ensures x in repr && t == Plug(inner, s) && s.Node? && s.n == x && s.left == Leaf && Before(inner) == []
      ensures Inorder(t) != [] && Inorder(t)[0] == x
    {
      x, inner, s := x0, Top, t;
      Place(path, t);
      while x.left != null
        invariant x in repr && t == Plug(inner, s) && s.Node? && s.n == x && Before(inner) == []
        invariant x.left == RootRef(null, s.left) && Refs(s) <= repr
        decreases s
      {
        x, inner, s := x.left, GoLeft(inner, s.n, s.c, s.right), s.left;
        PlugJoin(path, inner, s);
        Place(Join(path, inner), s);
      }
      PlugJoin(path, inner, s);
      Place(Join(path, inner), s);
      NilRoot(null as Ref, s.left);
      PlugInorder(inner, s);
    }

    /** Max of a subtree: the node at the end of its right links. */
    method Max(x0: BNode, ghost path: Hole, ghost t: Shape) returns (x: BNode, ghost inner: Hole, ghost s: Shape)
      requires Linked() && tree == Plug(path, t) && t.Node? && t.n == x0
      ensures x in repr && t == Plug(inner, s) && s.Node? && s.n == x && s.right == Leaf && After(inner) == []
      ensures Inorder(t) != [] && Inorder(t)[|Inorder(t)| - 1] == x
    {
      x, inner, s := x0, Top, t;
      Place(path, t);
      while x.right != null
        invariant x in repr && t == Plug(inner, s) && s.Node? && s.n == x && After(inner) == []
        invariant x.right == RootRef(null, s.right) && Refs(s) <= repr
        decreases s
      {
        x, inner, s := x.right, GoRight(inner, s.left, s.n, s.c), s.right;
        PlugJoin(path, inner, s);
        Place(Join(path, inner), s);
      }
      PlugJoin(path, inner, s);
      Place(Join(path, inner), s);
      NilRoot(null as Ref, s.right);
      PlugInorder(inner, s);
    }

    /** The way up from a node without a right child. */
    method Climb(z0: BNode, ghost path0: Hole, ghost t0: Shape, ghost i: nat) returns (y: BNode?, ghost i': nat)
      requires Linked() && tree == Plug(path0, t0) && t0.Node? && t0.n == z0 && z0 in repr
      requires i < |Inorder(tree)| && Inorder(tree)[i..] == [z0] + After(path0)
      ensures i' == i && Follows(Inorder(tree), z0, y, i)
    {
      i' := i;
      var z := z0;
      ghost var path, t := path0, t0;
      Place(path, t);
      y := z.parent;
      while y != null && y.right == z
        invariant tree == Plug(path, t) && t.Node? && t.n == z
        invariant z in repr && y == ParentRef(null, path) && y == z.parent
        invariant After(path) == After(path0)
        invariant !path.Top? ==> path.n in repr && (path.n.right == z <==> path.GoRight?)
        decreases path
      {
        z := y;
        t, path := Node(path.left, path.n, path.c, t), path.up;
        Place(path, t);
        y := y.parent;
      }
      ghost var s := Inorder(tree);
      assert s[i] == s[i..][0] == z0;
      assert |s| > i + 1 ==> s[i + 1] == s[i..][1];
    }

    /** Next: the node after z in key order, null after the last. */
    method Next(z0: BNode?) returns (y: BNode?, ghost i: int)
      requires Linked() && (z0 != null ==> z0 in repr)
      ensures z0 == null ==> y == null
      ensures z0 != null ==> Follows(Inorder(tree), z0, y, i)
    {
      if z0 == null {
        return null, 0;
      }
      ghost var path, t := Locate(tree, z0);
      Place(path, t);
      i := RootAt(path, t);
      InorderAround(path, t);
      if z0.right != null {
        ghost var inner, s;
        y, inner, s := Min(z0.right, GoRight(path, t.left, t.n, t.c), t.right);
        return;
      }
      NilRoot(null as Ref, t.right);
      y, i := Climb(z0, path, t, i);
    }

    /** The way up from a node without a left child. */
    method ClimbLeft(z0: BNode, ghost path0: Hole, ghost t0: Shape, ghost i: nat) returns (y: BNode?, ghost i': nat)
      requires Linked() && tree == Plug(path0, t0) && t0.Node? && t0.n == z0 && z0 in repr
      requires i < |Inorder(tree)| && Inorder(tree)[i] == z0 && Inorder(tree)[..i] == Before(path0)
      ensures i' == i && Leads(Inorder(tree), z0, y, i)
    {
      i' := i;
      var z := z0;
      ghost var path, t := path0, t0;
      Place(path, t);
      y := z.parent;
      while y != null && y.left == z
        invariant tree == Plug(path, t) && t.Node? && t.n == z
        invariant z in repr && y == ParentRef(null, path) && y == z.parent
        invariant Before(path) == Before(path0)
        invariant !path.Top? ==> path.n in repr && (path.n.left == z <==> path.GoLeft?)
        decreases path
      {
        z := y;
        t, path := Node(t, path.n, path.c, path.right), path.up;
        Place(path, t);
        y := y.parent;
      }
      assert i > 0 ==> Inorder(tree)[i - 1] == Inorder(tree)[..i][i - 1];
    }

    /** Pre: the node before z in key order, null before the first. */
    method Pre(z0: BNode?) returns (y: BNode?, ghost i: int)
      requires Linked() && (z0 != null ==> z0 in repr)
      ensures z0 == null ==> y == null
      ensures z0 != null ==> Leads(Inorder(tree), z0, y, i)
    {
      if z0 == null {
        return null, 0;
      }
      ghost var path, t := Locate(tree, z0);
      Place(path, t);
      i := RootAt(path, t);
      InorderAround(path, t);
      if z0.left != null {
        ghost var inner, s;
        y, inner, s := Max(z0.left, GoLeft(path, t.n, t.c, t.right), t.left);
        assert Inorder(tree)[..i][i - 1] == y;
        return;
      }
      NilRoot(null as Ref, t.left);
      y, i := ClimbLeft(z0, path, t, i);
    }

    // ----- deletion

    /** Transplant: the parent of u leads to v instead, and v has the parent of u. */
    method Transplant(u: BNode, v: BNode?, ghost path: Hole, ghost s: set<BNode>)
      requires u in s && (v == null || v in s) && v != u && u.parent == ParentRef(null, path)
      requires !path.Top? ==> path.n in s - {u} && path.n != v && (path.n.left == u <==> path.GoLeft?)
      modifies this`root, s`left, s`right, s`parent
      ensures root == if path.Top? then v else old(root)
      ensures forall n {:trigger n.parent} :: n in s ==> n.parent == if n == v then old(u.parent) else old(n.parent)
      ensures forall n {:trigger n.left} :: n in s ==> n.left == if path.GoLeft? && n == path.n then v else old(n.left)
      ensures forall n {:trigger n.right} :: n in s ==>
        n.right == if path.GoRight? && n == path.n then v else old(n.right)
      ensures Moved(old(Snap(s)), Snap(s), path, v, s)
    {
      if u.parent == null {
        root := v;
      } else if u.parent.left == u {
        u.parent.left := v;
      } else {
        u.parent.right := v;
      }
      if v != null {
        v.parent := u.parent;
      }
    }

    /** The tree is now t', in the nodes s'. */
    ghost method Settle(s': set<BNode>, t': Shape)
      requires Refs(t') == s' && Holds(Snap(s'), null, root, t')
      modifies this`repr, this`tree
      ensures Linked() && repr == s' && tree == t'
    {
      repr, tree := s', t';
    }

    /** Transplant, for the nodes that stay when u goes. */
    method CutOff(u: BNode, v: BNode?, ghost path: Hole, ghost s: set<BNode>)
      requires u in s && (v == null || v in s) && v != u && u.parent == ParentRef(null, path)
      requires !path.Top? ==> path.n in s - {u} && path.n != v && (path.n.left == u <==> path.GoLeft?)
      modifies this`root, s`left, s`right, s`parent
      ensures root == if path.Top? then v else old(root)
      ensures Moved(old(Snap(s)), Snap(s - {u}), path, v, s - {u})
    {
      ghost var h := Snap(s);
      Transplant(u, v, path, s);
      SnapLess(s, s - {u});
      MovedLess(h, Snap(s), Snap(s - {u}), path, v, s, u);
    }

    /** What CutOff asks for. */
    lemma PlaceOfOne(path: Hole, t: Shape, w: Shape)
      requires Linked() && tree == Plug(path, t) && t.Node? && (w == t.left || w == t.right)
      ensures t.n in repr && t.n.parent == ParentRef(null, path) && (w.Node? ==> w.n in repr && w.n != t.n)
      ensures !path.Top? ==>
        path.n in repr - {t.n} && path.n != RootRef(null, w) && (path.n.left == t.n <==> path.GoLeft?)
    {
      Place(path, t);
      Around(Snap(repr), root, path, t, w);
    }

    /** Deletes a node that has at most one child, w. */
    method Detach(u: BNode, v: BNode?, ghost path: Hole, ghost t: Shape, ghost w: Shape)
      requires Linked() && tree == Plug(path, t) && t.Node? && t.n == u && v == RootRef(null, w)
      requires (t.left == Leaf && w == t.right) || (t.right == Leaf && w == t.left)
      modifies this, repr`left, repr`right, repr`parent
      ensures Linked() && repr == old(repr) - {u} && tree == Plug(path, w)
    {
      ghost var h := Snap(repr);
      PlaceOfOne(path, t, w);
      CutOff(u, v, path, repr);
      Lifted(h, Snap(repr - {u}), old(root), root, path, t, w, repr);
      Settle(repr - {u}, Plug(path, w));
    }

    /** The assignments that put y, which is in no tree, into the place of z. */
    method SupplantLinks(z: BNode, y: BNode, ghost path: Hole, ghost rl: BNode, ghost rr: BNode, ghost s: set<BNode>)
      requires {z, y, rl, rr} <= s && z != y && rl !in {z, y, rr} && rr !in {z, y}
      requires z.left == rl && z.right == rr && z.parent == ParentRef(null, path)
      requires !path.Top? ==> path.n in s - {z, y, rl, rr} && (path.n.left == z <==> path.GoLeft?)
      modifies this`root, s`left, s`right, s`parent
      ensures Installed(old(Snap(s)), Snap(s), old(root), root, path, y, rl, rr, s - {rr})
      ensures var h, h' := old(Snap(s)), Snap(s); rr in h && rr in h' && h'[rr] == h[rr].(p := y)
    {
      y.right := z.right;
      y.right.parent := y;
      Transplant(z, y, path, s);
      y.left := z.left;
      y.left.parent := y;
    }

    /** The assignments that put the right child y of z into the place of z. */
    method RaiseLinks(z: BNode, y: BNode, ghost path: Hole, ghost rl: BNode, ghost s: set<BNode>)
      requires {z, y, rl} <= s && z != y && rl !in {z, y}
      requires z.left == rl && z.right == y && z.parent == ParentRef(null, path)
      requires !path.Top? ==> path.n in s - {z, y, rl} && (path.n.left == z <==> path.GoLeft?)
      modifies this`root, s`left, s`right, s`parent
      ensures Installed(old(Snap(s)), Snap(s), old(root), root, path, y, rl, old(y.right), s)
    {
      Transplant(z, y, path, s);
      y.left := z.left;
      y.left.parent := y;
    }

    lemma PlaceOfTwo(path: Hole, t: Shape)
      requires Linked() && tree == Plug(path, t) && t.Node? && t.left.Node? && t.right.Node?
      ensures t.n in repr && t.n.parent == ParentRef(null, path) && t.n.left == t.left.n && t.n.right == t.right.n
      ensures {t.left.n, t.right.n} <= repr && t.left.n !in {t.n, t.right.n} && t.right.n != t.n
      ensures !path.Top? ==> path.n in repr - {t.n, t.left.n, t.right.n} && (path.n.left == t.n <==> path.GoLeft?)
    {
      Place(path, t);
      Focus(Snap(repr), null, root, path, t);
      TwoChildren(path, t.left, t.n, t.c, t.right);
    }

    /** y, which is in no tree, takes the place of z. */
    method Supplant(z: BNode, y: BNode, ghost path: Hole, ghost t: Shape)
      requires Linked() && tree == Plug(path, t) && t.Node? && t.n == z && t.left.Node? && t.right.Node? && y !in repr
      modifies this, repr`left, repr`right, repr`parent, y`left, y`right, y`parent
      ensures Linked() && repr == old(repr) - {z} + {y} && tree == Plug(path, Node(t.left, y, (), t.right))
    {
      ghost var h0, h := Snap(repr), Snap(repr + {y});
      PlaceOfTwo(path, t);
      SupplantLinks(z, y, path, t.left.n, t.right.n, repr + {y});
      ghost var repr' := repr - {z} + {y};
      SnapLess(repr + {y}, repr');
      Supplanting(h0, h, Snap(repr + {y}), Snap(repr'), old(root), root, path, t, y, repr);
      Settle(repr', Plug(path, Node(t.left, y, (), t.right)));
    }

    /** The right child y of z, which has no left child, takes the place of z. */
    method Raise(z: BNode, y: BNode, ghost path: Hole, ghost t: Shape)
      requires Linked() && tree == Plug(path, t) && t.Node? && t.n == z && t.left.Node? && t.right.Node?
      requires t.right.n == y && t.right.left == Leaf
      modifies this, repr`left, repr`right, repr`parent
      ensures Linked() && repr == old(repr) - {z} && tree == Plug(path, Node(t.left, y, (), t.right.right))
    {
      ghost var h := Snap(repr);
      PlaceOfTwo(path, t);
      ghost var below := GoRight(path, t.left, t.n, t.c);
      Place(below, t.right);
      RaiseLinks(z, y, path, t.left.n, repr);
      ghost var repr' := repr - {z};
      SnapLess(repr, repr');
      InstalledLess(h, Snap(repr), Snap(repr'), old(root), root, path, y, t.left.n, RootRef(null, t.right.right),
        repr, repr', repr');
      Raised(h, Snap(repr'), old(root), root, path, t, repr);
      Settle(repr', Plug(path, Node(t.left, y, (), t.right.right)));
    }

    /** The least node of the right subtree in its place. */
    lemma LowPlace(path: Hole, t: Shape, below: Hole, inner: Hole, s: Shape)
      requires Linked() && tree == Plug(path, t) && tree == Plug(Join(below, inner), s) && s.Node?
      requires t.Node? && t.right == Plug(inner, s) && ParentRef(null, below) == t.n
      ensures s.n in repr && s.n.right == RootRef(null, s.right) && (s.n.parent == t.n <==> inner.Top?) && s.n != t.n
    {
      Place(Join(below, inner), s);
      JoinParent(below, inner);
      Focus(Snap(repr), null, root, path, t);
      NotAbove(t, inner, s);
    }

    /** The next node y, further down, leaves its place and takes that of z. */
    method Promote(z: BNode, y: BNode, ghost path: Hole, ghost t: Shape, ghost below: Hole, ghost inner: Hole,
                   ghost s: Shape)
      requires Linked() && tree == Plug(path, t) && t.Node? && t.n == z && t.left.Node? && y != z
      requires below == GoRight(path, t.left, t.n, t.c) && t.right == Plug(inner, s) && !inner.Top?
      requires tree == Plug(Join(below, inner), s) && s.Node? && s.n == y
      requires s.left == Leaf && y in repr && y.right == RootRef(null, s.right)
      modifies this, repr`left, repr`right, repr`parent
      ensures Linked() && repr == old(repr) - {z} && tree == Plug(path, Node(t.left, y, (), Plug(inner, s.right)))
    {
      Detach(y, y.right, Join(below, inner), s, s.right);
      PlugJoin(below, inner, s.right);
      PlugNode(inner, s.right);
      Supplant(z, y, path, Node(t.left, z, t.c, Plug(inner, s.right)));
    }

    /** Delete of a node with two children: the next node takes its place. */
    method DeleteInner(z: BNode, ghost path: Hole, ghost t: Shape)
      requires Linked() && tree == Plug(path, t) && t.Node? && t.n == z && t.left.Node? && t.right.Node?
      modifies this, repr`left, repr`right, repr`parent
      ensures Linked() && repr == old(repr) - {z}
      ensures Inorder(tree) == Others(path, t)
    {
      PlaceOfTwo(path, t);
      ghost var below, inner, s := GoRight(path, t.left, t.n, t.c), Top, Leaf;
      var y;
      y, inner, s := Min(z.right, below, t.right);
      NextInPlace(path, t, inner, s);
      PlugJoin(below, inner, s);
      LowPlace(path, t, below, inner, s);
      if y.parent != z {
        Promote(z, y, path, t, below, inner, s);
      } else {
        Raise(z, y, path, t);
      }
    }

    /** Delete of a node: whatever its children, it alone leaves the sequence of nodes. */
    method DeleteNode(z: BNode, ghost path: Hole, ghost t: Shape) returns (ghost i: nat)
      requires Linked() && tree == Plug(path, t) && t.Node? && t.n == z
      modifies this, repr`left, repr`right, repr`parent
      ensures Linked() && repr == old(repr) - {z}
      ensures i < |old(Inorder(tree))| && old(Inorder(tree))[i] == z && Inorder(tree) == Dropped(old(Inorder(tree)), i)
    {
      i := RootAt(path, t);
      Place(path, t);
      DropRoot(path, t);
      if z.left == null {
        NilRoot(null as Ref, t.left);
        OnlyChild(path, t, t.right);
        Detach(z, z.right, path, t, t.right);
      } else if z.right == null {
        NilRoot(null as Ref, t.right);
        OnlyChild(path, t, t.left);
        Detach(z, z.left, path, t, t.left);
      } else {
        DeleteInner(z, path, t);
      }
    }

    /** Delete: the node with the key, if there is one, and nothing else leaves the tree. */
    method Delete(data: int) returns (ghost i: nat)
      requires Valid()
      modifies this, repr`left, repr`right, repr`parent
      ensures Valid()
      ensures Has(old(Inorder(tree)), data) ==>
        i < |old(Inorder(tree))| && old(Inorder(tree))[i] != null && old(Inorder(tree))[i].data == data
        && Inorder(tree) == Dropped(old(Inorder(tree)), i)
      ensures !Has(old(Inorder(tree)), data) ==> Inorder(tree) == old(Inorder(tree)) && repr == old(repr)
      ensures Ascending(old(Inorder(tree))) ==> Ascending(Inorder(tree))
    {
      ghost var path, t;
      var x;
      x, path, t := Search(data);
      i := 0;
      if x != null {
        ghost var s := Inorder(tree);
        i := DeleteNode(x, path, t);
        OrderedDropped(s, i);
      }
    }

    // ----- insertion

    /** The descent of Insert, which goes right on equal keys. */
    method Descend(data: int) returns (y: BNode?, ghost path: Hole)
      requires Valid()
      ensures tree == Plug(path, Leaf) && y == ParentRef(null, path)
      ensures WeakSplit(path, data) && path == Fall(tree, data, Top)
      ensures !path.Top? ==> y in repr && (path.GoLeft? <==> data < y.data)
    {
      var x := root;
      y, path := null, Top;
      ghost var t := tree;
      ModelsRoot(Snap(repr), null, root, null, tree);
      while x != null
        invariant tree == Plug(path, t) && x == RootRef(null, t) && y == ParentRef(null, path) && WeakSplit(path, data)
        invariant (x != null ==> x in repr) && Fall(tree, data, Top) == Fall(t, data, path)
        invariant !path.Top? ==> y in repr && (path.GoLeft? <==> data < y.data)
        decreases t
      {
        Place(path, t);
        WeakSplitDown(path, t.left, x, t.c, t.right, data);
        y := x;
        if data < x.data {
          path, t := GoLeft(path, x, t.c, t.right), t.left;
          x := x.left;
        } else {
          path, t := GoRight(path, t.left, x, t.c), t.right;
          x := x.right;
        }
      }
      PlugDistinct(path, t);
      NilRoot(null as Ref, t);
    }

    /** The assignments that hang the new node: on the right of a smaller key only. */
    method LeafLinks(z: BNode, y: BNode?, ghost path: Hole)
      requires y == ParentRef(null, path) && z !in repr && z.left == z.right == null
      requires !path.Top? ==> y in repr && (path.GoRight? <==> z.data > y.data)
      modifies this`root, repr`left, repr`right, z`parent
      ensures root == if path.Top? then z else old(root)
      ensures var h, h' := old(Snap(repr)), Snap(repr + {z});
        && Agree(h, h', repr - {ParentRef(null, path)}) && h'[z] == Cell<Ref, ()>.Cell(y, null, null, ())
        && (!path.Top? ==> h'[y] == Redirected(path, h[y], z))
    {
      z.parent := y;
      if y == null {
        root := z;
      } else if z.data > y.data {
        y.right := z;
      } else {
        y.left := z;
      }
    }

    /** The new node replaces what is in its place. */
    method HangNode(z: BNode, y: BNode?, ghost path: Hole, ghost t: Shape)
      requires Linked() && tree == Plug(path, t)
      requires y == ParentRef(null, path) && z !in repr && z.left == z.right == null
      requires !path.Top? ==> y in repr && (path.GoRight? <==> z.data > y.data)
      modifies this, repr`left, repr`right, z`parent
      ensures Linked() && repr == old(repr) - Refs(t) + {z} && tree == Plug(path, Node(Leaf, z, (), Leaf))
    {
      ghost var h, zt: Shape := Snap(repr), Node(Leaf, z, (), Leaf);
      Focus(h, null, root, path, t);
      LeafLinks(z, y, path);
      ghost var repr' := repr - Refs(t) + {z};
      SnapLess(repr + {z}, repr');
      Hung(h, Snap(repr + {z}), Snap(repr'), old(root), root, path, t, z, repr);
      Settle(repr', Plug(path, zt));
    }

    /** The last node with this key has a left child and no right child. */
    ghost predicate HasCrowded(data: int)
      reads this, repr
    {
      exists e {:trigger e.left} ::
        e in repr && e.data == data && e.right == null && e.left != null && LastOfKey(Inorder(tree), e)
    }

    /** The place of the new node is taken exactly when some node with its key is crowded. */
    lemma Crowding(path: Hole, data: int)
      requires Valid() && tree == Plug(path, Leaf) && WeakSplit(path, data)
      requires !path.Top? ==> path.n != null && (path.GoLeft? <==> data < path.n.data)
      ensures Spot(path, !path.Top? && data == path.n.data).1 != Leaf <==> HasCrowded(data)
    {
      var h := Snap(repr);
      Focus(h, null, root, path, Leaf);
      ModelsRoot(h, null, root, null, tree);
      if !path.Top? && data == path.n.data {
        ModelsRoot(h, null, h[path.n].left, path.n, path.left);
        assert path.n in PathRefs(path);
        assert path.n.right == null && path.n.left == RootRef(null, path.left);
        TwinIsLast(path, data);
      }
      if HasCrowded(data) {
        var e :| e in repr && e.data == data && e.right == null && e.left != null && LastOfKey(Inorder(tree), e);
        OnlyTwin(h, root, path, e, data);
      }
    }

    /** Insert. The new node is put behind the last one of at most its key. Only, when that has its very key and no
        right child, the new node takes the place of its left subtree, and all nodes there are lost. */
    method Insert(data: int) returns (z: BNode, ghost i: nat, ghost lost: set<Ref>)
      requires Valid()
      modifies this, repr`left, repr`right
      ensures Valid() && fresh(z) && z.data == data && repr == old(repr) - lost + {z}
      ensures lost == {} ==>
        i < |Inorder(tree)| && Inorder(tree)[i] == z && Dropped(Inorder(tree), i) == old(Inorder(tree))
      ensures lost == {} <==> !old(HasCrowded(data))
      ensures Ascending(Inorder(tree)) <==> Ascending(old(Inorder(tree))) && !Has(old(Inorder(tree)), data)
      ensures (tree, lost) == Grown(old(tree), z)
    {
      z := new BNode(data);
      var y;
      ghost var path;
      y, path := Descend(data);
      ghost var twin := !path.Top? && data == y.data;
      ghost var (path', t) := Spot(path, twin);
      SpotFacts(path, twin);
      Crowding(path, data);
      InsertedOrder(path, z, twin);
      lost, i := Refs(t), |Before(path')|;
      HangNode(z, y, path', t);
    }
  }

  /** The trees that insertion of 2, 1 and 2 grows. */
  lemma TwoOneTwo(two: BNode, one: BNode, again: BNode)
    requires two.data == again.data == 2 && one.data == 1
    ensures var t1: Shape := Node(Leaf, two, (), Leaf);
      var left: Shape := Node(Leaf, one, (), Leaf);
      var t2: Shape := Node(left, two, (), Leaf);
      Grown(Leaf, two) == (t1, {}) && Grown(t1, one) == (t2, {}) && Grown(t2, again).1 == {one as Ref}
  {
    var t1: Shape := Node(Leaf, two, (), Leaf);
    var left: Shape := Node(Leaf, one, (), Leaf);
    var t2: Shape := Node(left, two, (), Leaf);
    assert Fall(t1, 1, Top) == GoLeft(Top, two as Ref, (), Leaf);
    assert Fall(t2, 2, Top) == GoRight(Top, left, two as Ref, ());
    assert Refs(left) == {one as Ref};
    assert Grown(Leaf, two) == (t1, {});
    assert Plug(GoLeft(Top, two as Ref, (), Leaf), left) == t2;
    assert Grown(t1, one) == (t2, {});
    assert Spot(GoRight(Top, left, two as Ref, ()), true).1 == left;
  }

  method GrowBy(t: BinaryTree, data: int) returns (z: BNode, ghost lost: set<Ref>)
    requires t.Valid()
    modifies t, t.repr
    ensures t.Valid() && fresh(z) && z.data == data
    ensures t.repr == old(t.repr) - lost + {z} && (t.tree, lost) == Grown(old(t.tree), z)
    ensures fresh(t.repr - old(t.repr))
  {
    ghost var i;
    z, i, lost := t.Insert(data);
  }

  /** Inserting 2, 1 and 2 loses the 1. */
  method LosesOne() returns (t: BinaryTree, one: BNode, ghost lost: set<Ref>)
    ensures t.Valid() && one.data == 1 && lost == {one as Ref} && one !in t.repr
  {
    t := new BinaryTree();
    var two, again;
    two, lost := GrowBy(t, 2);
    one, lost := GrowBy(t, 1);
    again, lost := GrowBy(t, 2);
    TwoOneTwo(two, one, again);
  }
}
