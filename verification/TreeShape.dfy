/**
  Pointer trees with parent links, as values.  A heap is a map from node to cell; a tree value says which
  node sits where; a path is a tree with a hole in it.  The lemmas say how single pointer assignments
  in the heap move the tree value.
 */
module TreeShape {
  datatype Tree<N, C> = Leaf | Node(left: Tree<N, C>, n: N, c: C, right: Tree<N, C>)

  /** What a node holds: its three links and a tag (the colour, for red-black trees). */
  datatype Cell<N, C> = Cell(p: N, left: N, right: N, c: C)

  /** The surroundings of a subtree: at the top, or as the left or right child of a node. */
  datatype Path<N, C> =
    | Top
    | GoLeft(up: Path<N, C>, n: N, c: C, right: Tree<N, C>)
    | GoRight(up: Path<N, C>, left: Tree<N, C>, n: N, c: C)

  function Plug<N, C>(path: Path<N, C>, t: Tree<N, C>): Tree<N, C>
    decreases path
  {
    match path
    case Top => t
    case GoLeft(up, n, c, right) => Plug(up, Node(t, n, c, right))
    case GoRight(up, left, n, c) => Plug(up, Node(left, n, c, t))
  }

  function Inorder<N, C>(t: Tree<N, C>): seq<N> {
    match t
    case Leaf => []
    case Node(l, n, _, r) => Inorder(l) + [n] + Inorder(r)
  }

  /** The nodes before and after the hole. */
  function Before<N, C>(path: Path<N, C>): seq<N> {
    match path
    case Top => []
    case GoLeft(up, _, _, _) => Before(up)
    case GoRight(up, left, n, _) => Before(up) + Inorder(left) + [n]
  }

  function After<N, C>(path: Path<N, C>): seq<N> {
    match path
    case Top => []
    case GoLeft(up, n, _, right) => [n] + Inorder(right) + After(up)
    case GoRight(up, _, _, _) => After(up)
  }

  lemma Reassociate<N>(a: seq<N>, b: seq<N>, c: seq<N>, d: seq<N>, e: seq<N>)
    ensures a + (b + c + d) + e == a + b + (c + d + e) && a + (b + c + d) + e == a + b + c + d + e
  {
  }

  /** The middle of a sorted sequence bounds both sides. */
  lemma AroundMiddle<N>(a: seq<N>, b: seq<N>, n: N, d: seq<N>, e: seq<N>, upto: (N, N) -> bool)
    requires var s := a + (b + [n] + d) + e; forall i, j {:trigger s[i], s[j]} :: 0 <= i < j < |s| ==> upto(s[i], s[j])
    ensures forall m {:trigger m in b} :: m in b ==> upto(m, n)
    ensures forall m {:trigger m in d} :: m in d ==> upto(n, m)
  {
    var s, k := a + (b + [n] + d) + e, |a| + |b|;
    assert s[k] == n;
    forall m | m in b ensures upto(m, n) {
      var i :| 0 <= i < |b| && b[i] == m;
      assert s[|a| + i] == m;
    }
    forall m | m in d ensures upto(n, m) {
      var i :| 0 <= i < |d| && d[i] == m;
      assert s[k + 1 + i] == m;
    }
  }

  lemma {:induction false} PlugInorder<N, C>(path: Path<N, C>, t: Tree<N, C>)
    ensures Inorder(Plug(path, t)) == Before(path) + Inorder(t) + After(path)
    decreases path
  {
    match path
    case Top =>
    case GoLeft(up, n, c, right) =>
      PlugInorder(up, Node(t, n, c, right));
      Reassociate(Before(up), Inorder(t), [n], Inorder(right), After(up));
    case GoRight(up, left, n, c) =>
      PlugInorder(up, Node(left, n, c, t));
      Reassociate(Before(up), Inorder(left), [n], Inorder(t), After(up));
  }

  function Refs<N, C>(t: Tree<N, C>): set<N> {
    match t
    case Leaf => {}
    case Node(l, n, _, r) => Refs(l) + {n} + Refs(r)
  }

  function PathRefs<N, C>(path: Path<N, C>): set<N> {
    match path
    case Top => {}
    case GoLeft(up, n, _, right) => PathRefs(up) + {n} + Refs(right)
    case GoRight(up, left, n, _) => PathRefs(up) + Refs(left) + {n}
  }

  /** No node occurs twice. */
  predicate Distinct<N(==), C>(t: Tree<N, C>) {
    match t
    case Leaf => true
    case Node(l, n, _, r) => Distinct(l) && Distinct(r) && Refs(l) !! Refs(r) && n !in Refs(l) && n !in Refs(r)
  }

  /** No node of the path occurs twice in it. */
  predicate DistinctPath<N(==), C>(path: Path<N, C>) {
    match path
    case Top => true
    case GoLeft(up, n, _, right) =>
      DistinctPath(up) && Distinct(right) && n !in Refs(right) && n !in PathRefs(up) && Refs(right) !! PathRefs(up)
    case GoRight(up, left, n, _) =>
      DistinctPath(up) && Distinct(left) && n !in Refs(left) && n !in PathRefs(up) && Refs(left) !! PathRefs(up)
  }

  lemma {:induction false} PlugDistinct<N, C>(path: Path<N, C>, t: Tree<N, C>)
    ensures Distinct(Plug(path, t)) <==> DistinctPath(path) && Distinct(t) && Refs(t) !! PathRefs(path)
    ensures Refs(Plug(path, t)) == PathRefs(path) + Refs(t)
    decreases path
  {
    match path
    case Top =>
    case GoLeft(up, n, c, right) => PlugDistinct(up, Node(t, n, c, right));
    case GoRight(up, left, n, c) => PlugDistinct(up, Node(left, n, c, t));
  }

  function RootRef<N, C>(nil: N, t: Tree<N, C>): N {
    if t.Leaf? then nil else t.n
  }

  function ParentRef<N, C>(nil: N, path: Path<N, C>): N {
    if path.Top? then nil else path.n
  }

  /** In heap h, the links from ref downwards are those of t, and ref's parent link is parent. */
  predicate Models<N(==), C(==)>(h: map<N, Cell<N, C>>, nil: N, ref: N, parent: N, t: Tree<N, C>) {
    match t
    case Leaf => ref == nil
    case Node(l, n, c, r) =>
      && ref == n && ref != nil && ref in h && h[ref].c == c && h[ref].p == parent
      && Models(h, nil, h[ref].left, ref, l) && Models(h, nil, h[ref].right, ref, r)
  }

  /** In heap h, with this root, the links around the hole are those of path and lead to child. */
  predicate ModelsPath<N(==), C(==)>(h: map<N, Cell<N, C>>, nil: N, root: N, child: N, path: Path<N, C>) {
    match path
    case Top => root == child
    case GoLeft(up, n, c, right) =>
      && n != nil && n in h && h[n].c == c && h[n].p == ParentRef(nil, up) && h[n].left == child
      && Models(h, nil, h[n].right, n, right) && ModelsPath(h, nil, root, n, up)
    case GoRight(up, left, n, c) =>
      && n != nil && n in h && h[n].c == c && h[n].p == ParentRef(nil, up) && h[n].right == child
      && Models(h, nil, h[n].left, n, left) && ModelsPath(h, nil, root, n, up)
  }

  lemma {:induction false} ModelsRoot<N, C>(h: map<N, Cell<N, C>>, nil: N, ref: N, parent: N, t: Tree<N, C>)
    requires Models(h, nil, ref, parent, t)
    ensures ref == RootRef(nil, t) && nil !in Refs(t) && Refs(t) <= h.Keys
  {
    match t
    case Leaf =>
    case Node(l, n, _, r) =>
      ModelsRoot(h, nil, h[n].left, n, l);
      ModelsRoot(h, nil, h[n].right, n, r);
  }

  /** A heap models a tree exactly when it models the surroundings and the subtree. */
  lemma {:induction false} PlugModels<N, C>(h: map<N, Cell<N, C>>, nil: N, root: N, path: Path<N, C>, t: Tree<N, C>)
    ensures Models(h, nil, root, nil, Plug(path, t))
      <==> ModelsPath(h, nil, root, RootRef(nil, t), path) && Models(h, nil, RootRef(nil, t), ParentRef(nil, path), t)
    decreases path
  {
    match path
    case Top =>
      if Models(h, nil, root, nil, t) {
        ModelsRoot(h, nil, root, nil, t);
      }
    case GoLeft(up, n, c, right) =>
      PlugModels(h, nil, root, up, Node(t, n, c, right));
      if n in h && Models(h, nil, h[n].left, n, t) {
        ModelsRoot(h, nil, h[n].left, n, t);
      }
    case GoRight(up, left, n, c) =>
      PlugModels(h, nil, root, up, Node(left, n, c, t));
      if n in h && Models(h, nil, h[n].right, n, t) {
        ModelsRoot(h, nil, h[n].right, n, t);
      }
  }

  predicate Agree<N(==), C(==)>(h: map<N, Cell<N, C>>, h': map<N, Cell<N, C>>, s: set<N>) {
    forall n {:trigger n in s} :: n in s ==> n in h && n in h' && h[n] == h'[n]
  }

  lemma {:induction false} ModelsFrame<N, C>(h: map<N, Cell<N, C>>, h': map<N, Cell<N, C>>, nil: N, ref: N, parent: N,
                                             t: Tree<N, C>)
    requires Models(h, nil, ref, parent, t) && Agree(h, h', Refs(t))
    ensures Models(h', nil, ref, parent, t)
  {
    match t
    case Leaf =>
    case Node(l, n, _, r) =>
      assert n in Refs(t);
      ModelsFrame(h, h', nil, h[n].left, n, l);
      ModelsFrame(h, h', nil, h[n].right, n, r);
  }

  lemma {:induction false} PathFrame<N, C>(h: map<N, Cell<N, C>>, h': map<N, Cell<N, C>>, nil: N, root: N, child: N,
                                           path: Path<N, C>)
    requires ModelsPath(h, nil, root, child, path) && Agree(h, h', PathRefs(path))
    ensures ModelsPath(h', nil, root, child, path)
    decreases path
  {
    match path
    case Top =>
    case GoLeft(up, n, _, right) =>
      assert n in PathRefs(path);
      ModelsFrame(h, h', nil, h[n].right, n, right);
      PathFrame(h, h', nil, root, n, up);
    case GoRight(up, left, n, _) =>
      assert n in PathRefs(path);
      ModelsFrame(h, h', nil, h[n].left, n, left);
      PathFrame(h, h', nil, root, n, up);
  }

  /** The parent cell once the hole holds another child. */
  function Redirected<N, C>(path: Path<N, C>, cell: Cell<N, C>, child: N): Cell<N, C> {
    if path.GoLeft? then cell.(left := child) else cell.(right := child)
  }

  /** Making the parent (or the root pointer) lead to another child changes nothing else around the hole. */
  lemma PathRedirect<N, C>(h: map<N, Cell<N, C>>, h': map<N, Cell<N, C>>, nil: N, root: N, root': N, child: N,
                           child': N, path: Path<N, C>)
    requires ModelsPath(h, nil, root, child, path) && DistinctPath(path)
    requires if path.Top? then root' == child' else root' == root
    requires !path.Top? ==> path.n in h' && h'[path.n] == Redirected(path, h[path.n], child')
    requires Agree(h, h', PathRefs(path) - {ParentRef(nil, path)})
    ensures ModelsPath(h', nil, root', child', path)
  {
    match path
    case Top =>
    case GoLeft(up, n, _, right) =>
      assert Refs(right) <= PathRefs(path) - {n} && PathRefs(up) <= PathRefs(path) - {n};
      ModelsFrame(h, h', nil, h[n].right, n, right);
      PathFrame(h, h', nil, root, n, up);
    case GoRight(up, left, n, _) =>
      assert Refs(left) <= PathRefs(path) - {n} && PathRefs(up) <= PathRefs(path) - {n};
      ModelsFrame(h, h', nil, h[n].left, n, left);
      PathFrame(h, h', nil, root, n, up);
  }

  /** Giving the root of a subtree another parent changes nothing below it. */
  lemma Reparent<N, C>(h: map<N, Cell<N, C>>, h': map<N, Cell<N, C>>, nil: N, parent: N, parent': N, t: Tree<N, C>)
    requires Models(h, nil, RootRef(nil, t), parent, t) && Distinct(t)
    requires t.Node? ==> t.n in h' && h'[t.n] == h[t.n].(p := parent')
    requires Agree(h, h', Refs(t) - {RootRef(nil, t)})
    ensures Models(h', nil, RootRef(nil, t), parent', t)
  {
    match t
    case Leaf =>
    case Node(l, n, _, r) =>
      assert Refs(l) <= Refs(t) - {n} && Refs(r) <= Refs(t) - {n};
      ModelsFrame(h, h', nil, h[n].left, n, l);
      ModelsFrame(h, h', nil, h[n].right, n, r);
  }

  /** The heap with this root holds exactly the tree t. */
  predicate Holds<N(==), C(==)>(h: map<N, Cell<N, C>>, nil: N, root: N, t: Tree<N, C>) {
    Models(h, nil, root, nil, t) && Distinct(t)
  }

  /** What holding a tree says about one of its subtrees and what is around it. */
  lemma Focus<N, C>(h: map<N, Cell<N, C>>, nil: N, root: N, path: Path<N, C>, t: Tree<N, C>)
    ensures Holds(h, nil, root, Plug(path, t))
      <==> && ModelsPath(h, nil, root, RootRef(nil, t), path)
           && Models(h, nil, RootRef(nil, t), ParentRef(nil, path), t)
           && DistinctPath(path) && Distinct(t) && Refs(t) !! PathRefs(path)
    ensures Refs(Plug(path, t)) == PathRefs(path) + Refs(t)
  {
    PlugModels(h, nil, root, path, t);
    PlugDistinct(path, t);
  }

  /** The child pointer of the parent that leads to the hole is the one the path says, and only that one. */
  lemma ChildSide<N, C>(h: map<N, Cell<N, C>>, nil: N, root: N, path: Path<N, C>, t: Tree<N, C>)
    requires Holds(h, nil, root, Plug(path, t)) && t.Node?
    ensures t.n in h && h[t.n].p == ParentRef(nil, path) && nil !in PathRefs(path) + Refs(t)
    ensures path.GoLeft? ==> path.n in h && h[path.n].left == t.n
    ensures path.GoRight? ==> path.n in h && h[path.n].right == t.n && h[path.n].left != t.n
  {
    Focus(h, nil, root, path, t);
    ModelsRoot(h, nil, root, nil, Plug(path, t));
    if path.GoRight? {
      ModelsRoot(h, nil, h[path.n].left, path.n, path.left);
    }
  }

  /** Three subtrees, two nodes and a path with no node in common. */
  predicate Apart<N(==), C>(path: Path<N, C>, a: Tree<N, C>, x: N, b: Tree<N, C>, y: N, c: Tree<N, C>) {
    && DistinctPath(path) && Distinct(a) && Distinct(b) && Distinct(c) && x != y
    && Refs(a) !! Refs(b) && Refs(a) !! Refs(c) && Refs(b) !! Refs(c)
    && Refs(a) !! PathRefs(path) && Refs(b) !! PathRefs(path) && Refs(c) !! PathRefs(path)
    && x !in Refs(a) + Refs(b) + Refs(c) + PathRefs(path) && y !in Refs(a) + Refs(b) + Refs(c) + PathRefs(path)
  }

  lemma ApartRight<N, C>(path: Path<N, C>, a: Tree<N, C>, x: N, cx: C, b: Tree<N, C>, y: N, cy: C, c: Tree<N, C>)
    ensures var t := Node(a, x, cx, Node(b, y, cy, c));
      Apart(path, a, x, b, y, c) <==> DistinctPath(path) && Distinct(t) && Refs(t) !! PathRefs(path)
  {
    var u := Node(b, y, cy, c);
    assert Refs(u) == Refs(b) + {y} + Refs(c);
    assert Refs(Node(a, x, cx, u)) == Refs(a) + {x} + Refs(u);
  }

  lemma ApartLeft<N, C>(path: Path<N, C>, a: Tree<N, C>, x: N, cx: C, b: Tree<N, C>, y: N, cy: C, c: Tree<N, C>)
    ensures var t := Node(Node(a, x, cx, b), y, cy, c);
      Apart(path, a, x, b, y, c) <==> DistinctPath(path) && Distinct(t) && Refs(t) !! PathRefs(path)
  {
    var u := Node(a, x, cx, b);
    assert Refs(u) == Refs(a) + {x} + Refs(b);
    assert Refs(Node(u, y, cy, c)) == Refs(u) + {y} + Refs(c);
  }

  /** The subtrees a, b, c, the nodes x, y and the path are in place; px and py are the parents of x and y, q that of
      b. */
  predicate Pieces<N(==), C(==)>(h: map<N, Cell<N, C>>, nil: N, root: N, child: N, path: Path<N, C>,
                                 a: Tree<N, C>, x: N, cx: C, b: Tree<N, C>, y: N, cy: C, c: Tree<N, C>, q: N) {
    && ModelsPath(h, nil, root, child, path) && Models(h, nil, RootRef(nil, a), x, a)
    && Models(h, nil, RootRef(nil, b), q, b) && Models(h, nil, RootRef(nil, c), y, c)
    && x != nil && x in h && h[x].c == cx && h[x].left == RootRef(nil, a)
    && y != nil && y in h && h[y].c == cy && h[y].right == RootRef(nil, c)
  }

  lemma PiecesRight<N, C>(h: map<N, Cell<N, C>>, nil: N, root: N, path: Path<N, C>,
                          a: Tree<N, C>, x: N, cx: C, b: Tree<N, C>, y: N, cy: C, c: Tree<N, C>)
    ensures Holds(h, nil, root, Plug(path, Node(a, x, cx, Node(b, y, cy, c))))
      <==> && Apart(path, a, x, b, y, c) && Pieces(h, nil, root, x, path, a, x, cx, b, y, cy, c, y)
           && h[x].p == ParentRef(nil, path) && h[x].right == y && h[y].p == x && h[y].left == RootRef(nil, b)
  {
    var t := Node(a, x, cx, Node(b, y, cy, c));
    Focus(h, nil, root, path, t);
    ApartRight(path, a, x, cx, b, y, cy, c);
    if Models(h, nil, x, ParentRef(nil, path), t) {
      assert Models(h, nil, h[x].right, x, t.right);
      ModelsRoot(h, nil, h[x].left, x, a);
      ModelsRoot(h, nil, h[y].left, y, b);
      ModelsRoot(h, nil, h[y].right, y, c);
    }
  }

  lemma PiecesLeft<N, C>(h: map<N, Cell<N, C>>, nil: N, root: N, path: Path<N, C>,
                         a: Tree<N, C>, x: N, cx: C, b: Tree<N, C>, y: N, cy: C, c: Tree<N, C>)
    ensures Holds(h, nil, root, Plug(path, Node(Node(a, x, cx, b), y, cy, c)))
      <==> && Apart(path, a, x, b, y, c) && Pieces(h, nil, root, y, path, a, x, cx, b, y, cy, c, x)
           && h[y].p == ParentRef(nil, path) && h[y].left == x && h[x].p == y && h[x].right == RootRef(nil, b)
  {
    var t := Node(Node(a, x, cx, b), y, cy, c);
    Focus(h, nil, root, path, t);
    ApartLeft(path, a, x, cx, b, y, cy, c);
    if Models(h, nil, y, ParentRef(nil, path), t) {
      assert Models(h, nil, h[y].left, y, t.left);
      ModelsRoot(h, nil, h[x].left, x, a);
      ModelsRoot(h, nil, h[x].right, x, b);
      ModelsRoot(h, nil, h[y].right, y, c);
    }
  }

  /** Hanging b from another node and the path from another child leaves all pieces in place. */
  lemma PiecesMove<N, C>(h: map<N, Cell<N, C>>, h': map<N, Cell<N, C>>, nil: N, root: N, root': N, child: N, child': N,
                         path: Path<N, C>,
                         a: Tree<N, C>, x: N, cx: C, b: Tree<N, C>, y: N, cy: C, c: Tree<N, C>, q: N, q': N)
    requires Apart(path, a, x, b, y, c) && Pieces(h, nil, root, child, path, a, x, cx, b, y, cy, c, q)
    requires x in h' && h'[x].c == h[x].c && h'[x].left == h[x].left
    requires y in h' && h'[y].c == h[y].c && h'[y].right == h[y].right
    requires b.Node? ==> b.n in h' && b.n in h && h'[b.n] == h[b.n].(p := q')
    requires !path.Top? ==> path.n in h && path.n in h' && h'[path.n] == Redirected(path, h[path.n], child')
    requires Agree(h, h', PathRefs(path) - {ParentRef(nil, path)}) && Agree(h, h', Refs(b) - {RootRef(nil, b)})
    requires Agree(h, h', Refs(a)) && Agree(h, h', Refs(c))
    requires root' == if path.Top? then child' else root
    ensures Pieces(h', nil, root', child', path, a, x, cx, b, y, cy, c, q')
  {
    ModelsFrame(h, h', nil, RootRef(nil, a), x, a);
    ModelsFrame(h, h', nil, RootRef(nil, c), y, c);
    Reparent(h, h', nil, q, q', b);
    PathRedirect(h, h', nil, root, root', child, child', path);
  }

  /** Agreement everywhere but on x, y, the root of b and the parent is agreement on all the pieces. */
  lemma AgreePieces<N, C>(h: map<N, Cell<N, C>>, h': map<N, Cell<N, C>>, nil: N, path: Path<N, C>,
                          a: Tree<N, C>, x: N, b: Tree<N, C>, y: N, c: Tree<N, C>, s: set<N>)
    requires Apart(path, a, x, b, y, c) && nil !in s && PathRefs(path) + Refs(a) + Refs(b) + Refs(c) + {x, y} <= s
    requires Agree(h, h', s - {x, y, RootRef(nil, b), ParentRef(nil, path)})
    ensures Agree(h, h', PathRefs(path) - {ParentRef(nil, path)}) && Agree(h, h', Refs(b) - {RootRef(nil, b)})
    ensures Agree(h, h', Refs(a)) && Agree(h, h', Refs(c))
  {
    var u := s - {x, y, RootRef(nil, b), ParentRef(nil, path)};
    assert !path.Top? ==> ParentRef(nil, path) in PathRefs(path);
    assert b.Node? ==> RootRef(nil, b) in Refs(b);
    assert Refs(a) <= u && Refs(c) <= u;
    assert Refs(b) - {RootRef(nil, b)} <= u && PathRefs(path) - {ParentRef(nil, path)} <= u;
  }

  /** The heap after the pointer assignments that hang b from q, the subtree from the parent g at child, and leave
      everything but x, y, the root of b and the parent alone. */
  predicate Rehung<N(==), C(==)>(h: map<N, Cell<N, C>>, h': map<N, Cell<N, C>>, nil: N, root: N, root': N,
                                 path: Path<N, C>,
                                 x: N, y: N, rb: N, q: N, child: N, s: set<N>) {
    && x in h && x in h' && y in h && y in h'
    && (rb != nil ==> rb in h && rb in h' && h'[rb] == h[rb].(p := q))
    && (!path.Top? ==> path.n in h && path.n in h' && h'[path.n] == Redirected(path, h[path.n], child))
    && root' == (if path.Top? then child else root)
    && Agree(h, h', s - {x, y, rb, ParentRef(nil, path)})
  }

  lemma RotationRefs<N, C>(path: Path<N, C>, a: Tree<N, C>, x: N, cx: C, b: Tree<N, C>, y: N, cy: C, c: Tree<N, C>)
    ensures Refs(Plug(path, Node(a, x, cx, Node(b, y, cy, c)))) == PathRefs(path) + Refs(a) + Refs(b) + Refs(c) + {x, y}
    ensures Refs(Plug(path, Node(Node(a, x, cx, b), y, cy, c))) == PathRefs(path) + Refs(a) + Refs(b) + Refs(c) + {x, y}
  {
    PlugDistinct(path, Node(a, x, cx, Node(b, y, cy, c)));
    PlugDistinct(path, Node(Node(a, x, cx, b), y, cy, c));
    assert Refs(Node(b, y, cy, c)) == Refs(b) + {y} + Refs(c);
    assert Refs(Node(a, x, cx, b)) == Refs(a) + {x} + Refs(b);
  }

  /** A left rotation at x, with y its right child, turns x(a, y(b, c)) into y(x(a, b), c). */
  lemma RotateLeft<N, C>(h: map<N, Cell<N, C>>, h': map<N, Cell<N, C>>, nil: N, root: N, root': N, path: Path<N, C>,
                         a: Tree<N, C>, x: N, cx: C, b: Tree<N, C>, y: N, cy: C, c: Tree<N, C>, s: set<N>)
    requires Holds(h, nil, root, Plug(path, Node(a, x, cx, Node(b, y, cy, c))))
    requires s == Refs(Plug(path, Node(a, x, cx, Node(b, y, cy, c))))
    requires Rehung(h, h', nil, root, root', path, x, y, RootRef(nil, b), x, y, s)
    requires h'[x] == h[x].(right := RootRef(nil, b), p := y) && h'[y] == h[y].(left := x, p := ParentRef(nil, path))
    ensures Holds(h', nil, root', Plug(path, Node(Node(a, x, cx, b), y, cy, c)))
    ensures Refs(Plug(path, Node(Node(a, x, cx, b), y, cy, c))) == s
  {
    PiecesRight(h, nil, root, path, a, x, cx, b, y, cy, c);
    RotationRefs(path, a, x, cx, b, y, cy, c);
    ModelsRoot(h, nil, root, nil, Plug(path, Node(a, x, cx, Node(b, y, cy, c))));
    AgreePieces(h, h', nil, path, a, x, b, y, c, s);
    PiecesMove(h, h', nil, root, root', x, y, path, a, x, cx, b, y, cy, c, y, x);
    PiecesLeft(h', nil, root', path, a, x, cx, b, y, cy, c);
  }

  /** A right rotation at y, with x its left child, turns y(x(a, b), c) into x(a, y(b, c)). */
  lemma RotateRight<N, C>(h: map<N, Cell<N, C>>, h': map<N, Cell<N, C>>, nil: N, root: N, root': N, path: Path<N, C>,
                          a: Tree<N, C>, x: N, cx: C, b: Tree<N, C>, y: N, cy: C, c: Tree<N, C>, s: set<N>)
    requires Holds(h, nil, root, Plug(path, Node(Node(a, x, cx, b), y, cy, c)))
    requires s == Refs(Plug(path, Node(Node(a, x, cx, b), y, cy, c)))
    requires Rehung(h, h', nil, root, root', path, x, y, RootRef(nil, b), y, x, s)
    requires h'[y] == h[y].(left := RootRef(nil, b), p := x) && h'[x] == h[x].(right := y, p := ParentRef(nil, path))
    ensures Holds(h', nil, root', Plug(path, Node(a, x, cx, Node(b, y, cy, c))))
    ensures Refs(Plug(path, Node(a, x, cx, Node(b, y, cy, c)))) == s
  {
    PiecesLeft(h, nil, root, path, a, x, cx, b, y, cy, c);
    RotationRefs(path, a, x, cx, b, y, cy, c);
    ModelsRoot(h, nil, root, nil, Plug(path, Node(Node(a, x, cx, b), y, cy, c)));
    AgreePieces(h, h', nil, path, a, x, b, y, c, s);
    PiecesMove(h, h', nil, root, root', y, x, path, a, x, cx, b, y, cy, c, x, y);
    PiecesRight(h', nil, root', path, a, x, cx, b, y, cy, c);
  }

  /** What a rotation may read off the heap before it starts. */
  lemma RightChildFacts<N, C>(h: map<N, Cell<N, C>>, nil: N, root: N, path: Path<N, C>,
                              a: Tree<N, C>, x: N, cx: C, b: Tree<N, C>, y: N, cy: C, c: Tree<N, C>)
    requires Holds(h, nil, root, Plug(path, Node(a, x, cx, Node(b, y, cy, c))))
    ensures var s, rb, g := Refs(Plug(path, Node(a, x, cx, Node(b, y, cy, c)))), RootRef(nil, b), ParentRef(nil, path);
      && x in s && y in s && x != y && x in h && y in h && h[x].right == y && h[y].left == rb
      && (rb == nil || rb in s - {x, y}) && h[x].p == g
      && (!path.Top? ==> g in s - {x, y, rb} && g in h && (h[g].left == x <==> path.GoLeft?))
  {
    PiecesRight(h, nil, root, path, a, x, cx, b, y, cy, c);
    RotationRefs(path, a, x, cx, b, y, cy, c);
    ChildSide(h, nil, root, path, Node(a, x, cx, Node(b, y, cy, c)));
    assert b.Node? ==> RootRef(nil, b) in Refs(b);
    assert !path.Top? ==> path.n in PathRefs(path);
  }

  lemma LeftChildFacts<N, C>(h: map<N, Cell<N, C>>, nil: N, root: N, path: Path<N, C>,
                             a: Tree<N, C>, x: N, cx: C, b: Tree<N, C>, y: N, cy: C, c: Tree<N, C>)
    requires Holds(h, nil, root, Plug(path, Node(Node(a, x, cx, b), y, cy, c)))
    ensures var s, rb, g := Refs(Plug(path, Node(Node(a, x, cx, b), y, cy, c))), RootRef(nil, b), ParentRef(nil, path);
      && x in s && y in s && x != y && x in h && y in h && h[y].left == x && h[x].right == rb
      && (rb == nil || rb in s - {x, y}) && h[y].p == g
      && (!path.Top? ==> g in s - {x, y, rb} && g in h && (h[g].left == y <==> path.GoLeft?))
  {
    PiecesLeft(h, nil, root, path, a, x, cx, b, y, cy, c);
    RotationRefs(path, a, x, cx, b, y, cy, c);
    ChildSide(h, nil, root, path, Node(Node(a, x, cx, b), y, cy, c));
    assert b.Node? ==> RootRef(nil, b) in Refs(b);
    assert !path.Top? ==> path.n in PathRefs(path);
  }

  /** Changing the tag of one node changes nothing else. */
  lemma Retag<N, C>(h: map<N, Cell<N, C>>, h': map<N, Cell<N, C>>, nil: N, root: N, path: Path<N, C>,
                    l: Tree<N, C>, n: N, c: C, c': C, r: Tree<N, C>)
    requires Holds(h, nil, root, Plug(path, Node(l, n, c, r)))
    requires n in h && n in h' && h'[n] == h[n].(c := c')
    requires Agree(h, h', Refs(Plug(path, Node(l, n, c, r))) - {n})
    ensures Holds(h', nil, root, Plug(path, Node(l, n, c', r)))
    ensures Refs(Plug(path, Node(l, n, c', r))) == Refs(Plug(path, Node(l, n, c, r)))
  {
    var s := Refs(Plug(path, Node(l, n, c, r))) - {n};
    Focus(h, nil, root, path, Node(l, n, c, r));
    Focus(h', nil, root, path, Node(l, n, c', r));
    assert Refs(l) <= s && Refs(r) <= s && PathRefs(path) <= s;
    ModelsFrame(h, h', nil, h[n].left, n, l);
    ModelsFrame(h, h', nil, h[n].right, n, r);
    PathFrame(h, h', nil, root, n, path);
  }

  /** Putting another subtree, already hung from the parent, into the hole. */
  lemma Replace<N, C>(h: map<N, Cell<N, C>>, h': map<N, Cell<N, C>>, nil: N, root: N, root': N, path: Path<N, C>,
                      t: Tree<N, C>, t': Tree<N, C>)
    requires Holds(h, nil, root, Plug(path, t))
    requires Models(h', nil, RootRef(nil, t'), ParentRef(nil, path), t') && Distinct(t') && Refs(t') !! PathRefs(path)
    requires root' == if path.Top? then RootRef(nil, t') else root
    requires !path.Top? ==> path.n in h' && path.n in h && h'[path.n] == Redirected(path, h[path.n], RootRef(nil, t'))
    requires Agree(h, h', PathRefs(path) - {ParentRef(nil, path)})
    ensures Holds(h', nil, root', Plug(path, t'))
    ensures Refs(Plug(path, t')) == PathRefs(path) + Refs(t')
  {
    Focus(h, nil, root, path, t);
    PathRedirect(h, h', nil, root, root', RootRef(nil, t), RootRef(nil, t'), path);
    Focus(h', nil, root', path, t');
  }

  lemma NodeFacts<N, C>(h: map<N, Cell<N, C>>, nil: N, root: N, path: Path<N, C>, t: Tree<N, C>)
    requires Holds(h, nil, root, Plug(path, t)) && t.Node?
    ensures t.n in Refs(Plug(path, t)) && t.n in h && h[t.n].c == t.c && h[t.n].p == ParentRef(nil, path)
    ensures nil !in Refs(Plug(path, t)) && (path.Top? ==> root == t.n)
  {
    Focus(h, nil, root, path, t);
    ModelsRoot(h, nil, root, nil, Plug(path, t));
  }

  function Sibling<N, C>(path: Path<N, C>): Tree<N, C>
    requires !path.Top?
  {
    if path.GoLeft? then path.right else path.left
  }

  /** What the heap says around a node that is not the root. */
  lemma ParentFacts<N, C>(h: map<N, Cell<N, C>>, nil: N, root: N, path: Path<N, C>, t: Tree<N, C>)
    requires Holds(h, nil, root, Plug(path, t)) && t.Node? && !path.Top?
    ensures {t.n, path.n} <= Refs(Plug(path, t)) <= h.Keys && nil !in Refs(Plug(path, t)) && t.n != path.n
    ensures h[t.n].p == path.n && h[t.n].c == t.c && h[path.n].c == path.c && h[path.n].p == ParentRef(nil, path.up)
    ensures path.GoLeft? ==> h[path.n].left == t.n && h[path.n].right == RootRef(nil, path.right)
    ensures path.GoRight? ==> h[path.n].right == t.n && h[path.n].left == RootRef(nil, path.left) != t.n
    ensures Sibling(path).Node? ==> Sibling(path).n in Refs(Plug(path, t)) && h[Sibling(path).n].c == Sibling(path).c
  {
    Focus(h, nil, root, path, t);
    ChildSide(h, nil, root, path, t);
    ModelsRoot(h, nil, root, nil, Plug(path, t));
    ModelsRoot(h, nil, if path.GoLeft? then h[path.n].right else h[path.n].left, path.n, Sibling(path));
    assert path.n in PathRefs(path);
    assert Sibling(path).Node? ==> Sibling(path).n in Refs(Sibling(path)) && Refs(Sibling(path)) <= PathRefs(path);
  }

  lemma {:induction false} PlugIsNode<N, C>(path: Path<N, C>, t: Tree<N, C>)
    requires t.Node?
    ensures Plug(path, t).Node?
    decreases path
  {
    match path
    case Top =>
    case GoLeft(up, n, c, right) => PlugIsNode(up, Node(t, n, c, right));
    case GoRight(up, left, n, c) => PlugIsNode(up, Node(left, n, c, t));
  }

  lemma RootFacts<N, C>(h: map<N, Cell<N, C>>, nil: N, root: N, t: Tree<N, C>, path: Path<N, C>, s: Tree<N, C>)
    requires Holds(h, nil, root, t) && t == Plug(path, s) && s.Node?
    ensures t.Node? && root == t.n && t == Plug(Top, Node(t.left, root, t.c, t.right))
  {
    PlugIsNode(path, s);
  }

  lemma NilRoot<N, C>(nil: N, t: Tree<N, C>)
    requires nil !in Refs(t) && RootRef(nil, t) == nil
    ensures t.Leaf?
  {
  }
}
