/**
  Red-black tree insertion with parent pointers and a nil sentinel.
 */
module RbTrees {
  import opened Powers
  import opened TreeShape

  datatype Color = Red | Black

  class RBNode {
    const key: int
    const val: string
    var color: Color
    var p: RBNode?
    var left: RBNode?
    var right: RBNode?

    constructor (key: int, val: string)
      ensures this.key == key && this.val == val && color == Black && p == left == right == null
    {
      this.key, this.val := key, val;
      color, p, left, right := Black, null, null, null;
    }
  }

  type Ref = RBNode?
  type Shape = Tree<Ref, Color>
  type Hole = Path<Ref, Color>
  type Heap = map<Ref, Cell<Ref, Color>>

  /** The links and colours of a set of nodes, as a value. */
  ghost function Snap(s: set<RBNode>): (h: Heap)
    reads s
    ensures h.Keys == s
    ensures forall n {:trigger h[n]} {:trigger n in h} :: n in s ==> h[n] == Cell(n.p, n.left, n.right, n.color)
  {
    map n: Ref | n in s :: Cell(n.p, n.left, n.right, n.color)
  }

  // ----- red-black trees as values

  predicate IsRed(t: Shape) {
    t.Node? && t.c == Red
  }

  /** The number of black nodes on the leftmost way down. */
  function Bh(t: Shape): nat {
    if t.Leaf? then 0 else Bh(t.left) + if t.c == Black then 1 else 0
  }

  /** No red node has a red child, and all ways down meet the same number of black nodes. */
  predicate RB(t: Shape) {
    t.Leaf? || (RB(t.left) && RB(t.right) && Bh(t.left) == Bh(t.right)
                && (t.c == Red ==> !IsRed(t.left) && !IsRed(t.right)))
  }

  predicate RedAbove(path: Hole) {
    !path.Top? && path.c == Red
  }

  /** The surroundings are red-black around a subtree of black height b, and end in a black root. */
  predicate PathOk(path: Hole, b: nat)
    decreases path
  {
    path.Top? || (RB(Sibling(path)) && Bh(Sibling(path)) == b
                  && (path.c == Red ==> !IsRed(Sibling(path)) && !path.up.Top? && path.up.c == Black)
                  && PathOk(path.up, if path.c == Black then b + 1 else b))
  }

  /** A red-black tree with a black root, seen from one of its subtrees. */
  lemma {:induction false} PlugRB(path: Hole, t: Shape)
    ensures RB(Plug(path, t)) && !IsRed(Plug(path, t))
      <==> RB(t) && PathOk(path, Bh(t)) && !(IsRed(t) && RedAbove(path)) && (path.Top? ==> !IsRed(t))
    decreases path
  {
    match path
    case Top =>
    case GoLeft(up, n, c, right) => PlugRB(up, Node(t, n, c, right));
    case GoRight(up, left, n, c) => PlugRB(up, Node(left, n, c, t));
  }

  /** Red-black but for one red node that may have a red parent or be the root. */
  predicate AlmostRB(path: Hole, l: Shape, r: Shape) {
    RB(l) && RB(r) && Bh(l) == Bh(r) && !IsRed(l) && !IsRed(r) && PathOk(path, Bh(l))
  }

  /** The subtree of the parent, with t in the hole and the given colour for the parent. */
  function Wrap(path: Hole, t: Shape, c: Color): Shape
    requires !path.Top?
  {
    if path.GoLeft? then Node(t, path.n, c, path.right) else Node(path.left, path.n, c, t)
  }

  /** The hole at the sibling, with t where the hole of path was. */
  function SiblingHole(path: Hole, t: Shape): Hole
    requires !path.Top?
  {
    if path.GoLeft? then GoRight(path.up, t, path.n, path.c) else GoLeft(path.up, path.n, path.c, t)
  }

  function Blacken(t: Shape): Shape
    requires t.Node?
  {
    Node(t.left, t.n, Black, t.right)
  }

  /** Case 1 as a value: the children of the grandparent once parent and uncle are black. */
  function Recolored(path: Hole, zt: Shape): (Shape, Shape)
    requires !path.Top? && !path.up.Top? && Sibling(path.up).Node?
  {
    var x, u := Wrap(path, zt, Black), Blacken(Sibling(path.up));
    if path.up.GoLeft? then (x, u) else (u, x)
  }

  lemma RecoloredIsAlmostRB(path: Hole, l: Shape, z: Ref, r: Shape)
    requires AlmostRB(path, l, r) && RedAbove(path) && IsRed(Sibling(path.up))
    ensures var (l', r') := Recolored(path, Node(l, z, Red, r)); AlmostRB(path.up.up, l', r')
  {
    var zt := Node(l, z, Red, r);
    assert RB(zt) && Bh(zt) == Bh(l);
    assert PathOk(path.up, Bh(l));
    var x, u := Wrap(path, zt, Black), Sibling(path.up);
    assert RB(x) && Bh(x) == Bh(l) + 1;
    assert RB(Blacken(u)) && Bh(Blacken(u)) == Bh(l) + 1;
  }

  lemma RecoloredInorder(path: Hole, zt: Shape, c: Color)
    requires !path.Top? && !path.up.Top? && Sibling(path.up).Node?
    ensures var (l', r') := Recolored(path, zt);
      Inorder(Plug(path.up.up, Node(l', path.up.n, c, r'))) == Inorder(Plug(path, zt))
  {
    var (l', r') := Recolored(path, zt);
    var x := Wrap(path, zt, path.c);
    PlugInorder(path.up.up, Node(l', path.up.n, c, r'));
    PlugInorder(path.up.up, Wrap(path.up, x, path.up.c));
    assert Inorder(x) == Inorder(Wrap(path, zt, Black));
    assert Inorder(Blacken(Sibling(path.up))) == Inorder(Sibling(path.up));
  }

  lemma InnerOrder(p: seq<Ref>, a: seq<Ref>, x: Ref, b: seq<Ref>, y: Ref, c: seq<Ref>, q: seq<Ref>)
    ensures (p + a + [x]) + (b + [y] + c) + q == p + (a + [x] + b) + ([y] + c + q)
  {
  }

  /** Case 2 as a value: z, an inner grandchild, changes places with its parent x, which is the next z. */
  lemma InnerTurn(path: Hole, l: Shape, z: Ref, r: Shape)
    requires AlmostRB(path, l, r) && RedAbove(path) && path.up.GoLeft? != path.GoLeft?
    ensures path.GoRight? ==>
      var next := GoLeft(path.up, z, Red, r);
      && AlmostRB(next, path.left, l) && RedAbove(next)
      && Inorder(Plug(next, Node(path.left, path.n, Red, l))) == Inorder(Plug(path, Node(l, z, Red, r)))
    ensures path.GoLeft? ==>
      var next := GoRight(path.up, l, z, Red);
      && AlmostRB(next, r, path.right) && RedAbove(next)
      && Inorder(Plug(next, Node(r, path.n, Red, path.right))) == Inorder(Plug(path, Node(l, z, Red, r)))
  {
    PlugInorder(path, Node(l, z, Red, r));
    if path.GoRight? {
      PlugInorder(GoLeft(path.up, z, Red, r), Node(path.left, path.n, Red, l));
      InnerOrder(Before(path.up), Inorder(path.left), path.n, Inorder(l), z, Inorder(r), After(path.up));
    } else {
      PlugInorder(GoRight(path.up, l, z, Red), Node(r, path.n, Red, path.right));
      InnerOrder(Before(path.up), Inorder(l), z, Inorder(r), path.n, Inorder(path.right), After(path.up));
    }
  }

  /** Case 3 as a value: the parent x turns black and takes the place of the grandparent, which turns red. */
  lemma OuterTurnLeft(path: Hole, l: Shape, z: Ref, r: Shape)
    requires AlmostRB(path, l, r) && RedAbove(path) && path.up.GoLeft? && path.GoLeft? && !IsRed(path.up.right)
    ensures var next := GoLeft(path.up.up, path.n, Black, Node(path.right, path.up.n, Red, path.up.right));
      && AlmostRB(next, l, r)
      && Inorder(Plug(next, Node(l, z, Red, r))) == Inorder(Plug(path, Node(l, z, Red, r)))
  {
    var t, g := Node(l, z, Red, r), path.up;
    assert PathOk(g, Bh(l));
    var next := GoLeft(g.up, path.n, Black, Node(path.right, g.n, Red, g.right));
    PlugInorder(path, t);
    PlugInorder(next, t);
    Reassociate([path.n], Inorder(path.right), [g.n], Inorder(g.right), After(g.up));
  }

  lemma OuterTurnRight(path: Hole, l: Shape, z: Ref, r: Shape)
    requires AlmostRB(path, l, r) && RedAbove(path) && path.up.GoRight? && path.GoRight? && !IsRed(path.up.left)
    ensures var next := GoRight(path.up.up, Node(path.up.left, path.up.n, Red, path.left), path.n, Black);
      && AlmostRB(next, l, r)
      && Inorder(Plug(next, Node(l, z, Red, r))) == Inorder(Plug(path, Node(l, z, Red, r)))
  {
    var t, g := Node(l, z, Red, r), path.up;
    assert PathOk(g, Bh(l));
    var next := GoRight(g.up, Node(g.left, g.n, Red, path.left), path.n, Black);
    PlugInorder(path, t);
    PlugInorder(next, t);
    Reassociate(Before(g.up), Inorder(g.left), [g.n], Inorder(path.left), [path.n]);
  }

  function Length(path: Hole): nat
    decreases path
  {
    if path.Top? then 0 else 1 + Length(path.up)
  }

  /** What one round of the fix-up loop makes smaller: the way to the root, and next whether z is an inner
      grandchild. */
  function Effort(path: Hole): nat {
    2 * Length(path) + if !path.Top? && !path.up.Top? && path.GoLeft? != path.up.GoLeft? then 1 else 0
  }

  // ----- keys in order

  predicate SortedKeys(s: seq<Ref>) {
    && null !in s
    && (forall i, j {:trigger s[i], s[j]} :: 0 <= i < j < |s| ==> s[i] != null && s[j] != null && s[i].key <= s[j].key)
  }

  /** Every key on the left of the hole is at most key, every key on the right is larger. */
  predicate Split(path: Hole, key: int) {
    && (forall n {:trigger n in Before(path)} :: n in Before(path) ==> n != null && n.key <= key)
    && (forall n {:trigger n in After(path)} :: n in After(path) ==> n != null && n.key > key)
  }

  predicate KeyUpTo(x: Ref, y: Ref) {
    x != null && y != null && x.key <= y.key
  }

  /** Going down on the side that the comparison chooses keeps the split. */
  lemma SplitDown(path: Hole, l: Shape, n: RBNode, c: Color, r: Shape, key: int)
    requires SortedKeys(Inorder(Plug(path, Node(l, n, c, r)))) && Split(path, key)
    ensures if key < n.key then Split(GoLeft(path, n, c, r), key) else Split(GoRight(path, l, n, c), key)
  {
    PlugInorder(path, Node(l, n, c, r));
    AroundMiddle(Before(path), Inorder(l), n as Ref, Inorder(r), After(path), KeyUpTo);
  }

  /** Key and value of each node. */
  function Items(s: seq<Ref>): (items: seq<(int, string)>)
    requires null !in s
    ensures |items| == |s|
    ensures forall i {:trigger items[i]} :: 0 <= i < |s| ==> s[i] != null && items[i] == (s[i].key, s[i].val)
  {
    seq(|s|, i requires 0 <= i < |s| => assert s[i] in s; (s[i].key, s[i].val))
  }

  /** How many items at the front have at most this key. */
  function Upper(items: seq<(int, string)>, key: int): (k: nat)
    ensures k <= |items|
  {
    if items == [] || items[0].0 > key then 0 else 1 + Upper(items[1..], key)
  }

  /** Insertion into a sorted sequence, after the items of equal key. */
  function WithItem(items: seq<(int, string)>, key: int, val: string): seq<(int, string)> {
    var k := Upper(items, key);
    items[..k] + [(key, val)] + items[k..]
  }

  /** Insertion adds the pair and loses none. */
  lemma WithItemAdds(items: seq<(int, string)>, key: int, val: string)
    ensures multiset(WithItem(items, key, val)) == multiset(items) + multiset{(key, val)}
  {
    var k := Upper(items, key);
    assert items == items[..k] + items[k..];
  }

  lemma {:induction false} UpperIs(items: seq<(int, string)>, key: int, k: nat)
    requires k <= |items| && (forall i :: 0 <= i < k ==> items[i].0 <= key) && (k < |items| ==> items[k].0 > key)
    ensures Upper(items, key) == k
  {
    if k > 0 {
      UpperIs(items[1..], key, k - 1);
    }
  }

  lemma ItemsConcat(a: seq<Ref>, b: seq<Ref>)
    requires null !in a && null !in b
    ensures null !in a + b && Items(a + b) == Items(a) + Items(b)
  {
  }

  /** A node put between the smaller-or-equal and the larger keys keeps the order. */
  lemma PutSorted(a: seq<Ref>, z: RBNode, b: seq<Ref>)
    requires SortedKeys(a + b)
    requires forall n {:trigger n in a} :: n in a ==> n != null && n.key <= z.key
    requires forall n {:trigger n in b} :: n in b ==> n != null && n.key > z.key
    ensures SortedKeys(a + [z] + b)
  {
    var s, s' := a + b, a + [z] + b;
    forall i, j | 0 <= i < j < |s'| ensures s'[i] != null && s'[j] != null && s'[i].key <= s'[j].key {
      var i', j' := if i < |a| then i else i - 1, if j < |a| then j else j - 1;
      if i == |a| {
        assert s'[j] == b[j'- |a|] && b[j' - |a|] in b;
      } else if j == |a| {
        assert s'[i] == a[i] && a[i] in a;
      } else {
        assert s'[i] == s[i'] && s'[j] == s[j'];
      }
    }
  }

  /** ... and is an insertion after the items of equal key. */
  lemma PutItems(a: seq<Ref>, z: RBNode, b: seq<Ref>)
    requires null !in a + b
    requires forall n {:trigger n in a} :: n in a ==> n != null && n.key <= z.key
    requires forall n {:trigger n in b} :: n in b ==> n != null && n.key > z.key
    ensures null !in a + [z] + b && Items(a + [z] + b) == WithItem(Items(a + b), z.key, z.val)
  {
    ItemsConcat(a, b);
    ItemsConcat(a, [z]);
    ItemsConcat(a + [z], b);
    var items := Items(a) + Items(b);
    assert forall i {:trigger Items(a)[i]} :: 0 <= i < |a| ==> a[i] in a && items[i] == Items(a)[i];
    assert |b| > 0 ==> b[0] in b && items[|a|] == Items(b)[0];
    UpperIs(items, z.key, |a|);
    assert Items([z]) == [(z.key, z.val)];
  }

  // ----- heights

  function Blacks(path: Hole): nat
    decreases path
  {
    if path.Top? then 0 else Blacks(path.up) + if path.c == Black then 1 else 0
  }

  lemma {:induction false} BlackHeightOfPlug(path: Hole, t: Shape)
    requires PathOk(path, Bh(t))
    ensures Bh(Plug(path, t)) == Bh(t) + Blacks(path)
    decreases path
  {
    match path
    case Top =>
    case GoLeft(up, n, c, right) => BlackHeightOfPlug(up, Node(t, n, c, right));
    case GoRight(up, left, n, c) => BlackHeightOfPlug(up, Node(left, n, c, t));
  }

  /** Below a black root at most every other node is red. */
  lemma {:induction false} AtMostHalfRed(path: Hole, b: nat)
    requires PathOk(path, b)
    ensures Length(path) <= 2 * Blacks(path)
    decreases path
  {
    if !path.Top? {
      var b' := if path.c == Black then b + 1 else b;
      if path.c == Red {
        AtMostHalfRed(path.up.up, b' + 1);
      } else {
        AtMostHalfRed(path.up, b');
      }
    }
  }

  lemma {:induction false} SizeOfBlackHeight(t: Shape)
    requires RB(t)
    ensures Pow2(Bh(t)) <= |Inorder(t)| + 1
  {
    if t.Node? {
      SizeOfBlackHeight(t.left);
      SizeOfBlackHeight(t.right);
    }
  }

  lemma SquareMonotone(a: nat, b: nat)
    requires a <= b
    ensures a * a <= b * b
  {
  }

  /** A descent of this length is within 2 log2(n + 1). */
  predicate Shallow(length: nat, n: nat) {
    Pow2(length) <= (n + 1) * (n + 1)
  }

  /** Every way down a red-black tree of n nodes has length at most 2 log2(n + 1). */
  lemma HeightBound(path: Hole, t: Shape)
    requires RB(Plug(path, t)) && !IsRed(Plug(path, t))
    ensures Shallow(Length(path), |Inorder(Plug(path, t))|)
  {
    var whole := Plug(path, t);
    PlugRB(path, t);
    BlackHeightOfPlug(path, t);
    AtMostHalfRed(path, Bh(t));
    SizeOfBlackHeight(whole);
    PowMonotone(Length(path), 2 * Bh(whole));
    PowAdd(Bh(whole), Bh(whole));
    SquareMonotone(Pow2(Bh(whole)), |Inorder(whole)| + 1);
  }

  /** What a red leaf put into the hole where the descent ended makes of order, contents and balance. */
  lemma NewLeaf(path: Hole, z: RBNode)
    requires SortedKeys(Inorder(Plug(path, Leaf))) && Split(path, z.key)
    requires RB(Plug(path, Leaf)) && !IsRed(Plug(path, Leaf))
    ensures var before, after := Inorder(Plug(path, Leaf)), Inorder(Plug(path, Node(Leaf, z, Red, Leaf)));
      && AlmostRB(path, Leaf, Leaf) && Shallow(Length(path), |before|)
      && |after| == |before| + 1 && SortedKeys(after) && Items(after) == WithItem(Items(before), z.key, z.val)
  {
    var zt: Shape := Node(Leaf, z, Red, Leaf);
    HeightBound(path, Leaf);
    PlugRB(path, Leaf);
    PlugInorder(path, Leaf);
    PlugInorder(path, zt);
    assert Inorder(Plug(path, Leaf)) == Before(path) + After(path);
    assert Inorder(zt) == [z];
    PutSorted(Before(path), z, After(path));
    PutItems(Before(path), z, After(path));
  }

  /** How many nodes the descent for a key passes. */
  function Descent(t: Shape, key: int): nat
    decreases t
  {
    match t
    case Leaf => 0
    case Node(l, n, _, r) => if n == null then 0 else 1 + if key < n.key then Descent(l, key) else Descent(r, key)
  }

  /** The greater of two lengths. */
  function Greater(a: nat, b: nat): nat {
    if a < b then b else a
  }

  lemma ShallowGrows(length: nat, n: nat)
    ensures Shallow(length, n) ==> Shallow(length, n + 1)
  {
    SquareMonotone(n + 1, n + 2);
  }

  /** Going right from a node with a smaller key leaves no equal key behind. */
  lemma SearchSkips(path: Hole, l: Shape, n: RBNode, c: Color, r: Shape, key: int)
    requires SortedKeys(Inorder(Plug(path, Node(l, n, c, r)))) && n.key != key
    requires forall m {:trigger m in Before(path)} :: m in Before(path) ==> m != null && m.key != key
    ensures n.key < key ==>
      forall m {:trigger m in Before(GoRight(path, l, n, c))} :: m in Before(GoRight(path, l, n, c)) ==>
        m != null && m.key != key
  {
    PlugInorder(path, Node(l, n, c, r));
    AroundMiddle(Before(path), Inorder(l), n as Ref, Inorder(r), After(path), KeyUpTo);
  }

  class RBTree {
    var root: RBNode
    const nil: RBNode
    var size: nat
    var high: nat
    ghost var repr: set<RBNode>
    ghost var tree: Shape

    ghost predicate Linked()
      reads this`root, this`repr, this`tree, repr
    {
      nil !in repr && Refs(tree) == repr && Holds(Snap(repr), nil, root, tree)
    }

    /** A sorted red-black tree of n nodes, linked as tree says, with the descents so far within the height bound. */
    ghost predicate Sound(n: nat)
      reads this`root, this`repr, this`tree, this`high, repr, nil
    {
      && Linked() && nil.color == Black && RB(tree) && !IsRed(tree)
      && SortedKeys(Inorder(tree)) && n == |Inorder(tree)| && Shallow(high, n)
    }

    ghost predicate Valid()
      reads this, repr, nil
    {
      Sound(size)
    }

    constructor ()
      ensures Valid() && tree == Leaf && repr == {} && fresh(nil) && size == 0 && high == 0
    {
      nil := new RBNode(0, "");
      root := nil;
      size, high := 0, 0;
      repr, tree := {}, Leaf;
    }

    /** The assignments of LeftRorate. */
    method LeftLinks(x: RBNode, y: RBNode, ghost path: Hole, ghost rb: Ref)
      requires x in repr && y in repr && x != y && nil !in repr && x.right == y && y.left == rb
      requires (rb == nil || rb in repr - {x, y}) && x.p == ParentRef(nil, path)
      requires !path.Top? ==> path.n in repr - {x, y, rb} && (path.n.left == x <==> path.GoLeft?)
      modifies this`root, repr`p, repr`left, repr`right
      ensures Rehung(old(Snap(repr)), Snap(repr), nil, old(root), root, path, x, y, rb, x, y, repr)
      ensures var h, h' := old(Snap(repr)), Snap(repr);
        h'[x] == h[x].(right := rb, p := y) && h'[y] == h[y].(left := x, p := ParentRef(nil, path))
    {
      x.right := y.left;
      if y.left != nil {
        y.left.p := x;
      }
      y.p := x.p;
      if x.p == nil {
        root := y;
      } else if x == x.p.left {
        x.p.left := y;
      } else {
        x.p.right := y;
      }
      y.left := x;
      x.p := y;
    }

    method LeftRotate(x: RBNode, ghost path: Hole, ghost a: Shape, ghost cx: Color, ghost b: Shape, ghost cy: Color,
                      ghost c: Shape)
      requires Linked() && x.right != null && tree == Plug(path, Node(a, x, cx, Node(b, x.right, cy, c)))
      modifies this`root, this`tree, repr`p, repr`left, repr`right
      ensures Linked() && tree == Plug(path, Node(Node(a, x, cx, b), old(x.right), cy, c))
    {
      ghost var h := Snap(repr);
      var y := x.right;
      RightChildFacts(h, nil, root, path, a, x, cx, b, y, cy, c);
      LeftLinks(x, y, path, RootRef(nil, b));
      RotateLeft(h, Snap(repr), nil, old(root), root, path, a, x, cx, b, y, cy, c, repr);
      tree := Plug(path, Node(Node(a, x, cx, b), y, cy, c));
    }

    /** The assignments of RightRorate. */
    method RightLinks(y: RBNode, x: RBNode, ghost path: Hole, ghost rb: Ref)
      requires x in repr && y in repr && x != y && nil !in repr && y.left == x && x.right == rb
      requires (rb == nil || rb in repr - {x, y}) && y.p == ParentRef(nil, path)
      requires !path.Top? ==> path.n in repr - {x, y, rb} && (path.n.left == y <==> path.GoLeft?)
      modifies this`root, repr`p, repr`left, repr`right
      ensures Rehung(old(Snap(repr)), Snap(repr), nil, old(root), root, path, x, y, rb, y, x, repr)
      ensures var h, h' := old(Snap(repr)), Snap(repr);
        h'[y] == h[y].(left := rb, p := x) && h'[x] == h[x].(right := y, p := ParentRef(nil, path))
    {
      y.left := x.right;
      if x.right != nil {
        x.right.p := y;
      }
      x.p := y.p;
      if y.p == nil {
        root := x;
      } else if y == y.p.left {
        y.p.left := x;
      } else {
        y.p.right := x;
      }
      x.right := y;
      y.p := x;
    }

    method RightRotate(y: RBNode, ghost path: Hole, ghost a: Shape, ghost cx: Color, ghost b: Shape, ghost cy: Color,
                       ghost c: Shape)
      requires Linked() && y.left != null && tree == Plug(path, Node(Node(a, y.left, cx, b), y, cy, c))
      modifies this`root, this`tree, repr`p, repr`left, repr`right
      ensures Linked() && tree == Plug(path, Node(a, old(y.left), cx, Node(b, y, cy, c)))
    {
      ghost var h := Snap(repr);
      var x := y.left;
      LeftChildFacts(h, nil, root, path, a, x, cx, b, y, cy, c);
      RightLinks(y, x, path, RootRef(nil, b));
      RotateRight(h, Snap(repr), nil, old(root), root, path, a, x, cx, b, y, cy, c, repr);
      tree := Plug(path, Node(a, x, cx, Node(b, y, cy, c)));
    }

    /** One assignment to a colour field. */
    method Paint(n: RBNode, color: Color, ghost path: Hole, ghost l: Shape, ghost c: Color, ghost r: Shape)
      requires Linked() && tree == Plug(path, Node(l, n, c, r))
      modifies this`tree, n`color
      ensures Linked() && tree == Plug(path, Node(l, n, color, r))
    {
      ghost var h := Snap(repr);
      PlugDistinct(path, Node(l, n, c, r));
      n.color := color;
      Retag(h, Snap(repr), nil, root, path, l, n, c, color, r);
      tree := Plug(path, Node(l, n, color, r));
    }

    /** The situation at the head of the fix-up loop: z is red, and the tree is red-black everywhere else. */
    ghost predicate FixState(z: RBNode, path: Hole, l: Shape, r: Shape)
      reads this, repr, nil
    {
      Linked() && nil.color == Black && tree == Plug(path, Node(l, z, Red, r)) && AlmostRB(path, l, r)
    }

    /** The three colour assignments of case 1. */
    method PaintUncle(z: RBNode, y: RBNode, ghost path: Hole, ghost zt: Shape, ghost u: Shape)
      requires Linked() && tree == Plug(path, zt) && zt.Node? && zt.n == z && RedAbove(path)
      requires !path.up.Top? && path.up.c == Black && u == Sibling(path.up) && IsRed(u) && u.n == y
      modifies this`tree, repr`color
      ensures Linked() && var (l', r') := Recolored(path, zt); tree == Plug(path.up.up, Node(l', path.up.n, Red, r'))
    {
      ghost var up, xt := path.up, Wrap(path, zt, Black);
      ParentFacts(Snap(repr), nil, root, path, zt);
      ParentFacts(Snap(repr), nil, root, up, Wrap(path, zt, Red));
      Paint(z.p, Black, up, xt.left, Red, xt.right);
      Paint(y, Black, SiblingHole(up, xt), u.left, Red, u.right);
      Paint(z.p.p, Red, up.up, Recolored(path, zt).0, Black, Recolored(path, zt).1);
    }

    /** Case 1: parent and uncle are red.  Both turn black, the grandparent turns red and is next. */
    method RecolorUncle(z: RBNode, y: RBNode, ghost path: Hole, ghost l: Shape, ghost r: Shape)
      returns (g: RBNode, ghost l': Shape, ghost r': Shape)
      requires FixState(z, path, l, r) && RedAbove(path) && IsRed(Sibling(path.up)) && Sibling(path.up).n == y
      requires z.p != null && z.p.p != null && z.p.p == path.up.n
      modifies this`tree, repr`color
      ensures g == path.up.n && FixState(g, path.up.up, l', r') && Inorder(tree) == old(Inorder(tree))
    {
      ghost var zt := Node(l, z, Red, r);
      RecoloredIsAlmostRB(path, l, z, r);
      RecoloredInorder(path, zt, Red);
      g := z.p.p;
      PaintUncle(z, y, path, zt, Sibling(path.up));
      l', r' := Recolored(path, zt).0, Recolored(path, zt).1;
    }

    /** Case 2, left side: the parent is a left child and z a right one. */
    method TurnInnerLeft(z: RBNode, ghost path: Hole, ghost l: Shape, ghost r: Shape) returns (x: RBNode)
      requires FixState(z, path, l, r) && RedAbove(path) && path.up.GoLeft? && path.GoRight?
      modifies this`root, this`tree, repr`p, repr`left, repr`right
      ensures x == path.n && FixState(x, GoLeft(path.up, z, Red, r), path.left, l)
      ensures Inorder(tree) == old(Inorder(tree))
    {
      ParentFacts(Snap(repr), nil, root, path, Node(l, z, Red, r));
      InnerTurn(path, l, z, r);
      x := z.p;
      LeftRotate(x, path.up, path.left, Red, l, Red, r);
    }

    method TurnInnerRight(z: RBNode, ghost path: Hole, ghost l: Shape, ghost r: Shape) returns (x: RBNode)
      requires FixState(z, path, l, r) && RedAbove(path) && path.up.GoRight? && path.GoLeft?
      modifies this`root, this`tree, repr`p, repr`left, repr`right
      ensures x == path.n && FixState(x, GoRight(path.up, l, z, Red), r, path.right)
      ensures Inorder(tree) == old(Inorder(tree))
    {
      ParentFacts(Snap(repr), nil, root, path, Node(l, z, Red, r));
      InnerTurn(path, l, z, r);
      x := z.p;
      RightRotate(x, path.up, l, Red, r, Red, path.right);
    }

    /** Case 3, left side: the parent and z are left children. */
    method TurnOuterLeft(z: RBNode, ghost path: Hole, ghost l: Shape, ghost r: Shape) returns (ghost next: Hole)
      requires FixState(z, path, l, r) && RedAbove(path) && path.up.GoLeft? && path.GoLeft? && !IsRed(path.up.right)
      modifies this`root, this`tree, repr`p, repr`left, repr`right, repr`color
      ensures next == GoLeft(path.up.up, path.n, Black, Node(path.right, path.up.n, Red, path.up.right))
      ensures FixState(z, next, l, r) && Inorder(tree) == old(Inorder(tree))
    {
      ghost var zt, g := Node(l, z, Red, r), path.up;
      ParentFacts(Snap(repr), nil, root, path, zt);
      ParentFacts(Snap(repr), nil, root, g, Node(zt, path.n, Red, path.right));
      OuterTurnLeft(path, l, z, r);
      Paint(z.p, Black, g, zt, Red, path.right);
      Paint(z.p.p, Red, g.up, Node(zt, path.n, Black, path.right), Black, g.right);
      RightRotate(z.p.p, g.up, zt, Black, path.right, Red, g.right);
      next := GoLeft(g.up, path.n, Black, Node(path.right, g.n, Red, g.right));
    }

    method TurnOuterRight(z: RBNode, ghost path: Hole, ghost l: Shape, ghost r: Shape) returns (ghost next: Hole)
      requires FixState(z, path, l, r) && RedAbove(path) && path.up.GoRight? && path.GoRight? && !IsRed(path.up.left)
      modifies this`root, this`tree, repr`p, repr`left, repr`right, repr`color
      ensures next == GoRight(path.up.up, Node(path.up.left, path.up.n, Red, path.left), path.n, Black)
      ensures FixState(z, next, l, r) && Inorder(tree) == old(Inorder(tree))
    {
      ghost var zt, g := Node(l, z, Red, r), path.up;
      ParentFacts(Snap(repr), nil, root, path, zt);
      ParentFacts(Snap(repr), nil, root, g, Node(path.left, path.n, Red, zt));
      OuterTurnRight(path, l, z, r);
      Paint(z.p, Black, g, path.left, Red, zt);
      Paint(z.p.p, Red, g.up, g.left, Black, Node(path.left, path.n, Black, zt));
      LeftRotate(z.p.p, g.up, g.left, Red, path.left, Black, zt);
      next := GoRight(g.up, Node(g.left, g.n, Red, path.left), path.n, Black);
    }

    /** One round of the fix-up loop. */
    method FixStep(z: RBNode, ghost path: Hole, ghost l: Shape, ghost r: Shape)
      returns (z': RBNode, ghost path': Hole, ghost l': Shape, ghost r': Shape)
      requires FixState(z, path, l, r) && RedAbove(path)
      modifies this`root, this`tree, repr`p, repr`left, repr`right, repr`color
      ensures FixState(z', path', l', r') && Inorder(tree) == old(Inorder(tree))
      ensures Effort(path') < Effort(path)
    {
      ghost var zt := Node(l, z, Red, r);
      ParentFacts(Snap(repr), nil, root, path, zt);
      ParentFacts(Snap(repr), nil, root, path.up, Wrap(path, zt, Red));
      assert Length(path) == 1 + Length(path.up) == 2 + Length(path.up.up);
      z', path', l', r' := z, path, l, r;
      if z.p == z.p.p.left {
        var y := z.p.p.right;
        if y.color == Red {
          z', l', r' := RecolorUncle(z, y, path, l, r);
          path' := path.up.up;
        } else if z == z.p.right {
          z' := TurnInnerLeft(z, path, l, r);
          path', l', r' := GoLeft(path.up, z, Red, r), path.left, l;
        } else {
          path' := TurnOuterLeft(z, path, l, r);
        }
      } else {
        var y := z.p.p.left;
        if y.color == Red {
          z', l', r' := RecolorUncle(z, y, path, l, r);
          path' := path.up.up;
        } else if z == z.p.left {
          z' := TurnInnerRight(z, path, l, r);
          path', l', r' := GoRight(path.up, l, z, Red), r, path.right;
        } else {
          path' := TurnOuterRight(z, path, l, r);
        }
      }
    }

    lemma GuardReads(z: RBNode, path: Hole, l: Shape, r: Shape)
      requires FixState(z, path, l, r)
      ensures z.p != null && (z.p.color == Red <==> RedAbove(path)) && (path.Top? ==> root == z)
    {
      NodeFacts(Snap(repr), nil, root, path, Node(l, z, Red, r));
      if !path.Top? {
        ParentFacts(Snap(repr), nil, root, path, Node(l, z, Red, r));
      }
    }

    /** The last line of InsertFixup.  Unless z is the root, the root is black already. */
    method PaintRoot(ghost z: RBNode, ghost path: Hole, ghost l: Shape, ghost r: Shape)
      requires FixState(z, path, l, r) && !RedAbove(path)
      modifies this`tree, repr`color
      ensures Linked() && nil.color == Black && RB(tree) && !IsRed(tree) && Inorder(tree) == old(Inorder(tree))
    {
      ghost var t := tree;
      PlugRB(path, Node(l, z, Red, r));
      NodeFacts(Snap(repr), nil, root, path, Node(l, z, Red, r));
      RootFacts(Snap(repr), nil, root, t, path, Node(l, z, Red, r));
      Paint(root, Black, Top, t.left, t.c, t.right);
    }

    /** InsertFixup: a tree that is red-black but for one red node becomes red-black with a black root. */
    method InsertFixup(z0: RBNode, ghost path0: Hole, ghost l0: Shape, ghost r0: Shape)
      requires FixState(z0, path0, l0, r0)
      modifies this`root, this`tree, repr`p, repr`left, repr`right, repr`color
      ensures Linked() && nil.color == Black && RB(tree) && !IsRed(tree) && Inorder(tree) == old(Inorder(tree))
    {
      var z := z0;
      ghost var path, l, r := path0, l0, r0;
      GuardReads(z, path, l, r);
      while z.p.color == Red
        invariant FixState(z, path, l, r) && Inorder(tree) == old(Inorder(tree))
        invariant z.p != null && (z.p.color == Red <==> RedAbove(path)) && (path.Top? ==> root == z)
        decreases Effort(path)
      {
        z, path, l, r := FixStep(z, path, l, r);
        GuardReads(z, path, l, r);
      }
      PaintRoot(z, path, l, r);
    }

    /** The descent shared by Insert and Search, up to where it falls off the tree. */
    method Descend(key: int) returns (y: RBNode, cnt: nat, ghost path: Hole)
      requires Linked() && SortedKeys(Inorder(tree))
      ensures tree == Plug(path, Leaf) && y == ParentRef(nil, path) && cnt == Length(path) && Split(path, key)
      ensures cnt == Descent(tree, key)
      ensures !path.Top? ==> y in repr && (path.GoLeft? <==> key < y.key)
    {
      var x := root;
      y, cnt, path := nil, 0, Top;
      ghost var t := tree;
      ModelsRoot(Snap(repr), nil, root, nil, tree);
      while x != nil
        invariant tree == Plug(path, t) && x == RootRef(nil, t) && y == ParentRef(nil, path) && cnt == Length(path)
        invariant Descent(tree, key) == cnt + Descent(t, key)
        invariant Split(path, key) && (!path.Top? ==> y in repr && (path.GoLeft? <==> key < y.key))
        decreases t
      {
        ghost var h := Snap(repr);
        Focus(h, nil, root, path, t);
        ModelsRoot(h, nil, root, nil, tree);
        ModelsRoot(h, nil, h[x].left, x, t.left);
        ModelsRoot(h, nil, h[x].right, x, t.right);
        SplitDown(path, t.left, x, t.c, t.right, key);
        y := x;
        if key < x.key {
          path, t := GoLeft(path, x, t.c, t.right), t.left;
          x := x.left;
        } else {
          path, t := GoRight(path, t.left, x, t.c), t.right;
          x := x.right;
        }
        cnt := cnt + 1;
      }
      PlugDistinct(path, t);
      NilRoot(nil as Ref, t);
    }

    /** The assignments that hang the new node from where the descent ended. */
    method LeafLinks(z: RBNode, y: RBNode, ghost path: Hole)
      requires y == ParentRef(nil, path) && z !in repr && nil !in repr
      requires !path.Top? ==> y in repr && (path.GoLeft? <==> z.key < y.key)
      modifies this`root, repr`left, repr`right, z
      ensures root == if path.Top? then z else old(root)
      ensures var h, h' := old(Snap(repr)), Snap(repr + {z});
        && Agree(h, h', repr - {ParentRef(nil, path)}) && h'[z] == Cell<Ref, Color>.Cell(y, nil, nil, Red)
        && (!path.Top? ==> h'[y] == Redirected(path, h[y], z))
    {
      z.p := y;
      if y == nil {
        root := z;
      } else if z.key < y.key {
        y.left := z;
      } else {
        y.right := z;
      }
      z.left := nil;
      z.right := nil;
      z.color := Red;
    }

    method HangNode(z: RBNode, y: RBNode, ghost path: Hole)
      requires Linked() && tree == Plug(path, Leaf) && y == ParentRef(nil, path) && z !in repr && z != nil
      requires !path.Top? ==> y in repr && (path.GoLeft? <==> z.key < y.key)
      modifies this`root, this`tree, this`repr, repr`left, repr`right, z
      ensures Linked() && repr == old(repr) + {z} && tree == Plug(path, Node(Leaf, z, Red, Leaf))
    {
      ghost var h, zt: Shape := Snap(repr), Node(Leaf, z, Red, Leaf);
      PlugDistinct(path, Leaf);
      assert PathRefs(path) == repr;
      LeafLinks(z, y, path);
      ghost var h' := Snap(repr + {z});
      assert Refs(zt) == {z} && Distinct(zt) && Models(h', nil, z, y, zt);
      Replace(h, h', nil, old(root), root, path, Leaf, zt);
      repr, tree := repr + {z}, Plug(path, zt);
    }

    /** Insert of a node: the descent, whose length is recorded. */
    method FindHole(z: RBNode) returns (y: RBNode, ghost path: Hole)
      requires Valid()
      modifies this`high
      ensures tree == Plug(path, Leaf) && y == ParentRef(nil, path) && Shallow(high, size + 1)
      ensures !path.Top? ==> y in repr && (path.GoLeft? <==> z.key < y.key)
      ensures AlmostRB(path, Leaf, Leaf) && high == Greater(old(high), Descent(tree, z.key))
      ensures var after := Inorder(Plug(path, Node(Leaf, z, Red, Leaf)));
        |after| == size + 1 && SortedKeys(after) && Items(after) == WithItem(Items(Inorder(tree)), z.key, z.val)
    {
      var cnt;
      y, cnt, path := Descend(z.key);
      NewLeaf(path, z);
      ShallowGrows(high, size);
      ShallowGrows(cnt, size);
      if cnt > high {
        high := cnt;
      }
    }

    /** Insert of a node, up to the fix-up. */
    method AddLeaf(z: RBNode) returns (ghost path: Hole)
      requires Valid() && z !in repr && z != nil
      modifies this`root, this`tree, this`repr, this`high, repr`left, repr`right, z
      ensures FixState(z, path, Leaf, Leaf) && repr == old(repr) + {z} && Shallow(high, size + 1)
      ensures |Inorder(tree)| == size + 1 && SortedKeys(Inorder(tree))
      ensures high == Greater(old(high), old(Descent(tree, z.key)))
      ensures Items(Inorder(tree)) == WithItem(old(Items(Inorder(tree))), z.key, z.val)
    {
      var y;
      y, path := FindHole(z);
      HangNode(z, y, path);
    }

    method InsertNode(z: RBNode)
      requires Valid() && z !in repr && z != nil
      modifies this`root, this`tree, this`repr, this`high, repr, z
      ensures Sound(size + 1) && repr == old(repr) + {z} && high == Greater(old(high), old(Descent(tree, z.key)))
      ensures Items(Inorder(tree)) == WithItem(old(Items(Inorder(tree))), z.key, z.val)
    {
      ghost var path := AddLeaf(z);
      InsertFixup(z, path, Leaf, Leaf);
    }

    /** Insert: the new item goes after the items of at most its key, and the longest descent so far is recorded. */
    method Insert(key: int, val: string)
      requires Valid()
      modifies this, repr
      ensures Valid() && fresh(repr - old(repr)) && size == old(size) + 1
      ensures high == Greater(old(high), old(Descent(tree, key)))
      ensures Items(Inorder(tree)) == WithItem(old(Items(Inorder(tree))), key, val)
    {
      var z := new RBNode(key, val);
      InsertNode(z);
      size := size + 1;
    }

    /** Search: some node with the key, or nil when there is none. */
    method Search(key: int) returns (x: RBNode)
      requires Valid()
      ensures x != nil ==> x in repr && x in Inorder(tree) && x.key == key
      ensures x == nil ==> forall n {:trigger n in Inorder(tree)} :: n in Inorder(tree) ==> n != null && n.key != key
    {
      x := root;
      ghost var path, t := Top, tree;
      ModelsRoot(Snap(repr), nil, root, nil, tree);
      while x != nil && x.key != key
        invariant tree == Plug(path, t) && x == RootRef(nil, t) && Split(path, key)
        invariant forall n {:trigger n in Before(path)} :: n in Before(path) ==> n != null && n.key != key
        decreases t
      {
        ghost var h := Snap(repr);
        Focus(h, nil, root, path, t);
        ModelsRoot(h, nil, root, nil, tree);
        ModelsRoot(h, nil, h[x].left, x, t.left);
        ModelsRoot(h, nil, h[x].right, x, t.right);
        SplitDown(path, t.left, x, t.c, t.right, key);
        SearchSkips(path, t.left, x, t.c, t.right, key);
        if key < x.key {
          path, t := GoLeft(path, x, t.c, t.right), t.left;
          x := x.left;
        } else {
          path, t := GoRight(path, t.left, x, t.c), t.right;
          x := x.right;
        }
      }
      PlugDistinct(path, t);
      PlugInorder(path, t);
      if x == nil {
        NilRoot(nil as Ref, t);
      }
    }
  }
}
