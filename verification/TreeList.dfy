/**
 The order-statistic list: a left-leaning red-black tree of linked nodes, indexed by
 position. Nodes carry two cached aggregates, the number of live nodes and the number
 of all nodes below them, and a parent link.

 Every operation takes, as a ghost, the shape of the subtree it works on: a value of
 `RedBlack.Tree` whose elements are the nodes themselves. Its contract says that the
 nodes, afterwards, are linked as the corresponding function of `RedBlack` says.
 */
module TreeList {
  import opened RB = RedBlack

  class Node {
    var left: Node?
    var right: Node?
    var parent: Node?
    var weight: int
    var count: int
    var isRed: bool
    /** Whether the value held here is a tombstone; its owner may flip it at any time. */
    var removed: bool

    constructor (removed: bool)
      ensures this.removed == removed && isRed
      ensures left == right == parent == null && count == 1 && weight == OwnWeight()
    {
      this.removed := removed;
      isRed := true;
      left, right, parent := null, null, null;
      weight := if removed then 0 else 1;
      count := 1;
    }

    function OwnWeight(): (w: nat)
      reads this
    {
      if removed then 0 else 1
    }

    function LeftWeight(): (w: int)
      reads this, left
    {
      if left == null then 0 else left.weight
    }

    function RightWeight(): (w: int)
      reads this, right
    {
      if right == null then 0 else right.weight
    }

    function LeftCount(): (c: int)
      reads this, left
    {
      if left == null then 0 else left.count
    }

    function RightCount(): (c: int)
      reads this, right
    {
      if right == null then 0 else right.count
    }
  }

  // ---- Stores: the fields of a set of nodes, as a value ----------------------------

  datatype Cell = Cell(left: Node?, right: Node?, parent: Node?, red: bool, count: int, weight: int, own: nat)

  type Store = map<Node, Cell>

  ghost function CellOf(n: Node): (c: Cell)
    reads n
  {
    Cell(n.left, n.right, n.parent, n.isRed, n.count, n.weight, n.OwnWeight())
  }

  ghost function Snap(S: set<Node>): (m: Store)
    reads S
  {
    map n | n in S :: CellOf(n)
  }

  ghost function CountAt(m: Store, n: Node?): (c: int) {
    if n == null || n !in m then 0 else m[n].count
  }

  ghost function WeightAt(m: Store, n: Node?): (w: int) {
    if n == null || n !in m then 0 else m[n].weight
  }

  /** `c` with the aggregates recomputed from its children in `m`. */
  ghost function Refreshed(m: Store, c: Cell): (r: Cell) {
    c.(count := CountAt(m, c.left) + 1 + CountAt(m, c.right),
       weight := WeightAt(m, c.left) + c.own + WeightAt(m, c.right))
  }

  // ---- What it means for nodes to be linked as a shape ----------------------------

  type Shape = RB.Tree<Node>

  ghost function Nodes(t: Shape): (s: set<Node>) {
    set n | n in InOrder(t)
  }

  ghost predicate Unique(s: seq<Node>) {
    forall i, j :: 0 <= i < j < |s| ==> s[i] != s[j]
  }

  ghost predicate Distinct(t: Shape) {
    Unique(InOrder(t))
  }

  ghost function Top(t: Shape): (n: Node?) {
    if t.Leaf? then null else t.elem
  }

  ghost predicate ChildOf(m: Store, t: Shape, p: Node) {
    t.Branch? ==> t.elem in m && m[t.elem].parent == p
  }

  /**
   The nodes of `t` are linked, coloured and counted as `t` says, and every node but
   `stale` has the weight its children and its own liveness add up to.
   */
  ghost predicate Linked(m: Store, t: Shape, stale: Node?) {
    match t
    case Leaf => true
    case Branch(l, n, red, r) =>
      && n in m && m[n].left == Top(l) && m[n].right == Top(r) && m[n].red == red
      && ChildOf(m, l, n) && ChildOf(m, r, n)
      && m[n].count == Size(t)
      && (n == stale || m[n].weight == WeightAt(m, Top(l)) + m[n].own + WeightAt(m, Top(r)))
      && Linked(m, l, stale) && Linked(m, r, stale)
  }

  /** As `Linked`, except that the aggregates of the root itself may be out of date. */
  ghost predicate Wired(m: Store, t: Shape)
    requires t.Branch?
  {
    var l, n, r := t.left, t.elem, t.right;
    && n in m && m[n].left == Top(l) && m[n].right == Top(r) && m[n].red == t.red
    && ChildOf(m, l, n) && ChildOf(m, r, n)
    && Linked(m, l, null) && Linked(m, r, null)
  }

  lemma Parts(t: Shape)
    requires t.Branch?
    ensures Nodes(t) == Nodes(t.left) + {t.elem} + Nodes(t.right)
    ensures Distinct(t) ==> t.elem !in Nodes(t.left) && t.elem !in Nodes(t.right) && Nodes(t.left) !! Nodes(t.right)
    ensures Distinct(t) ==> Distinct(t.left) && Distinct(t.right)
  {
    SeqParts(InOrder(t.left), t.elem, InOrder(t.right), InOrder(t));
  }

  lemma SeqParts(a: seq<Node>, x: Node, b: seq<Node>, s: seq<Node>)
    requires s == a + [x] + b
    ensures forall n :: n in s <==> n in a || n == x || n in b
    ensures Unique(s) ==> x !in a && x !in b && (forall n :: n in a ==> n !in b) && Unique(a) && Unique(b)
  {
    assert forall i :: 0 <= i < |a| ==> s[i] == a[i];
    assert s[|a|] == x;
    assert forall i :: 0 <= i < |b| ==> s[|a| + 1 + i] == b[i];
  }

  /** Only the fields of a subtree's nodes matter to it, and not the parent of its root. */
  lemma {:induction false} Frame(m: Store, m': Store, t: Shape, stale: Node?)
    requires Distinct(t) && Linked(m, t, stale)
    requires forall n :: n in Nodes(t) && n in m ==>
               n in m' && (m'[n] == m[n] || (n == Top(t) && m'[n] == m[n].(parent := m'[n].parent)))
    ensures Linked(m', t, stale)
  {
    hide Nodes;
    hide Distinct;
    if t.Branch? {
      Parts(t);
      Frame(m, m', t.left, stale);
      Frame(m, m', t.right, stale);
      if t.left.Branch? { Parts(t.left); }
      if t.right.Branch? { Parts(t.right); }
    }
  }

  lemma Settle(m: Store, t: Shape)
    requires t.Branch? && Wired(m, t) && m[t.elem] == Refreshed(m, m[t.elem])
    ensures Linked(m, t, null)
  {
  }

  /** `m'` is `m` after a left rotation at `node`. */
  ghost predicate RotatedLeft(m: Store, m': Store, node: Node)
    requires node in m && m[node].right != null && m[node].right in m
  {
    var right := m[node].right;
    && m'.Keys == m.Keys
    && m'[node] == Refreshed(m', m[node].(right := m[right].left, parent := right, red := true))
    && m'[right] == Refreshed(m', m[right].(left := node, parent := m[node].parent, red := m[node].red))
    && forall n :: n in m && n != node && n != right ==>
         m'[n] == if n == m[right].left then m[n].(parent := node) else m[n]
  }

  /** `m'` is `m` after a right rotation at `node`. */
  ghost predicate RotatedRight(m: Store, m': Store, node: Node)
    requires node in m && m[node].left != null && m[node].left in m
  {
    var left := m[node].left;
    && m'.Keys == m.Keys
    && m'[node] == Refreshed(m', m[node].(left := m[left].right, parent := left, red := true))
    && m'[left] == Refreshed(m', m[left].(right := node, parent := m[node].parent, red := m[node].red))
    && forall n :: n in m && n != node && n != left ==>
         m'[n] == if n == m[left].right then m[n].(parent := node) else m[n]
  }

  lemma RotateLeftLinks(m: Store, m': Store, t: Shape)
    requires t.Branch? && t.right.Branch? && Distinct(t) && Wired(m, t) && RotatedLeft(m, m', t.elem)
    ensures Linked(m', RB.RotateLeft(t), null) && Kept(m, m', Nodes(t))
  {
    hide Nodes;
    hide Distinct;
    var a, b, c := t.left, t.right.left, t.right.right;
    assert Linked(m, t.right, null);
    Parts(t);
    Parts(t.right);
    TopIsNode(a);
    TopIsNode(b);
    TopIsNode(c);
    assert Linked(m', a, null) by { Frame(m, m', a, null); }
    assert Linked(m', b, null) by { Frame(m, m', b, null); }
    assert Linked(m', c, null) by { Frame(m, m', c, null); }
    var u := RB.RotateLeft(t);
    Settle(m', u.left);
    Settle(m', u);
  }

  lemma RotateRightLinks(m: Store, m': Store, t: Shape)
    requires t.Branch? && t.left.Branch? && Distinct(t) && Wired(m, t) && RotatedRight(m, m', t.elem)
    ensures Linked(m', RB.RotateRight(t), null) && Kept(m, m', Nodes(t))
  {
    hide Nodes;
    hide Distinct;
    var a, b, c := t.left.left, t.left.right, t.right;
    assert Linked(m, t.left, null);
    Parts(t);
    Parts(t.left);
    TopIsNode(a);
    TopIsNode(b);
    TopIsNode(c);
    assert Linked(m', a, null) by { Frame(m, m', a, null); }
    assert Linked(m', b, null) by { Frame(m, m', b, null); }
    assert Linked(m', c, null) by { Frame(m, m', c, null); }
    var u := RB.RotateRight(t);
    Settle(m', u.right);
    Settle(m', u);
  }

  lemma TopIsNode(t: Shape)
    ensures t.Branch? ==> t.elem in Nodes(t)
    ensures t.Leaf? ==> Nodes(t) == {}
  {
    if t.Branch? {
      Parts(t);
    }
  }

  /** The two stores agree on `S`. */
  ghost predicate Same(m: Store, m': Store, S: set<Node>) {
    forall n :: n in S && n in m ==> n in m' && m'[n] == m[n]
  }

  /** Only nodes of `S` changed, and no node changed its liveness. */
  ghost predicate Kept(m: Store, m': Store, S: set<Node>) {
    && m'.Keys == m.Keys
    && forall n :: n in m ==> m'[n].own == m[n].own && (n !in S ==> m'[n] == m[n])
  }

  lemma RecolorLinks(m: Store, m': Store, t: Shape, red: bool)
    requires t.Branch? && Distinct(t) && Linked(m, t, null)
    requires t.elem in m' && m'[t.elem] == m[t.elem].(red := red, parent := m'[t.elem].parent)
    requires Same(m, m', Nodes(t) - {t.elem})
    ensures Linked(m', t.(red := red), null)
  {
    hide Nodes;
    hide Distinct;
    Parts(t);
    TopIsNode(t.left);
    TopIsNode(t.right);
    Frame(m, m', t.left, null);
    Frame(m, m', t.right, null);
  }

  // ---- Pointer code ------------------------------------------------------------------

  function IsRedNode(n: Node?): (b: bool)
    reads n
  {
    n != null && n.isRed
  }

  /** The cached aggregates of one node agree with its children. */
  ghost predicate Fresh(node: Node)
    reads node, node.left, node.right
  {
    && node.weight == node.LeftWeight() + node.OwnWeight() + node.RightWeight()
    && node.count == node.LeftCount() + 1 + node.RightCount()
  }

  method UpdateNode(node: Node)
    requires node.left != node && node.right != node
    modifies node`weight, node`count
    ensures Fresh(node)
  {
    node.weight := node.LeftWeight() + node.OwnWeight() + node.RightWeight();
    node.count := node.LeftCount() + 1 + node.RightCount();
  }

  /** The nodes a left rotation at `node` reads or writes: all in `S`, all different. */
  ghost predicate LeftRotatable(node: Node, S: set<Node>)
    reads S
  {
    && node in S && node.right != null && node.right in S && node.right != node
    && var right := node.right;
    && (node.left != null ==> node.left in S && node.left != node && node.left != right)
    && (right.left != null ==> right.left in S && right.left != node && right.left != right)
    && (right.right != null ==> right.right in S && right.right != node && right.right != right)
  }

  method TurnLeft(node: Node, ghost S: set<Node>) returns (right: Node)
    requires LeftRotatable(node, S)
    modifies node, node.right, node.right.left
    ensures right == old(node.right)
    ensures var c := old(CellOf(node)); var d := old(CellOf(node.right));
            && CellOf(node) == c.(right := d.left, parent := right, red := true, count := node.count,
                weight := node.weight)
            && CellOf(right) == d.(left := node, parent := c.parent, red := c.red, count := right.count,
                weight := right.weight)
            && (d.left != null ==> CellOf(d.left) == old(CellOf(node.right.left)).(parent := node))
    ensures Fresh(node) && Fresh(right)
  {
    right := node.right;
    node.right := right.left;
    if node.right != null {
      node.right.parent := node;
    }
    right.left := node;
    right.parent := node.parent;
    node.parent := right;
    right.isRed := node.isRed;
    node.isRed := true;
    UpdateNode(node);
    UpdateNode(right);
  }

  method SpinLeft(node: Node, ghost S: set<Node>) returns (right: Node)
    requires LeftRotatable(node, S)
    modifies S
    ensures right == old(node.right) && RotatedLeft(old(Snap(S)), Snap(S), node)
  {
    ghost var m := Snap(S);
    right := TurnLeft(node, S);
    ghost var m' := Snap(S);
    assert m'.Keys == m.Keys;
    assert m'[node] == CellOf(node) && m'[right] == CellOf(right);
  }

  method RotateLeft(node: Node, ghost S: set<Node>, ghost t: Shape) returns (right: Node)
    requires t.Branch? && t.right.Branch? && t.elem == node && Nodes(t) <= S
    requires Distinct(t) && Wired(Snap(S), t)
    modifies S
    ensures right == RB.RotateLeft(t).elem && Linked(Snap(S), RB.RotateLeft(t), null)
    ensures Kept(old(Snap(S)), Snap(S), Nodes(t))
    ensures Nodes(RB.RotateLeft(t)) == Nodes(t) && Distinct(RB.RotateLeft(t))
  {
    RotateLeftSequence(t);
    LeftSite(S, t);
    hide InOrder;
    hide Linked;
    right := SpinLeft(node, S);
    RotateLeftLinks(old(Snap(S)), Snap(S), t);
  }

  lemma LeftSite(S: set<Node>, t: Shape)
    requires t.Branch? && t.right.Branch? && Nodes(t) <= S && Distinct(t) && Wired(Snap(S), t)
    ensures LeftRotatable(t.elem, S)
  {
    hide Nodes;
    hide Distinct;
    var m, u := Snap(S), t.right;
    Parts(t);
    Parts(u);
    TopIsNode(u.left);
    TopIsNode(u.right);
    TopIsNode(t.left);
    assert Linked(m, u, null);
    assert m[t.elem] == CellOf(t.elem) && m[u.elem] == CellOf(u.elem);
  }

  ghost predicate RightRotatable(node: Node, S: set<Node>)
    reads S
  {
    && node in S && node.left != null && node.left in S && node.left != node
    && var left := node.left;
    && (node.right != null ==> node.right in S && node.right != node && node.right != left)
    && (left.left != null ==> left.left in S && left.left != node && left.left != left)
    && (left.right != null ==> left.right in S && left.right != node && left.right != left)
  }

  method TurnRight(node: Node, ghost S: set<Node>) returns (left: Node)
    requires RightRotatable(node, S)
    modifies node, node.left, node.left.right
    ensures left == old(node.left)
    ensures var c := old(CellOf(node)); var d := old(CellOf(node.left));
            && CellOf(node) == c.(left := d.right, parent := left, red := true, count := node.count,
                weight := node.weight)
            && CellOf(left) == d.(right := node, parent := c.parent, red := c.red, count := left.count,
                weight := left.weight)
            && (d.right != null ==> CellOf(d.right) == old(CellOf(node.left.right)).(parent := node))
    ensures Fresh(node) && Fresh(left)
  {
    left := node.left;
    node.left := left.right;
    if node.left != null {
      node.left.parent := node;
    }
    left.right := node;
    left.parent := node.parent;
    node.parent := left;
    left.isRed := node.isRed;
    node.isRed := true;
    UpdateNode(node);
    UpdateNode(left);
  }

  method SpinRight(node: Node, ghost S: set<Node>) returns (left: Node)
    requires RightRotatable(node, S)
    modifies S
    ensures left == old(node.left) && RotatedRight(old(Snap(S)), Snap(S), node)
  {
    ghost var m := Snap(S);
    left := TurnRight(node, S);
    ghost var m' := Snap(S);
    assert m'.Keys == m.Keys;
    assert m'[node] == CellOf(node) && m'[left] == CellOf(left);
  }

  method RotateRight(node: Node, ghost S: set<Node>, ghost t: Shape) returns (left: Node)
    requires t.Branch? && t.left.Branch? && t.elem == node && Nodes(t) <= S
    requires Distinct(t) && Wired(Snap(S), t)
    modifies S
    ensures left == RB.RotateRight(t).elem && Linked(Snap(S), RB.RotateRight(t), null)
    ensures Kept(old(Snap(S)), Snap(S), Nodes(t))
    ensures Nodes(RB.RotateRight(t)) == Nodes(t) && Distinct(RB.RotateRight(t))
  {
    RotateRightSequence(t);
    RightSite(S, t);
    hide InOrder;
    hide Linked;
    left := SpinRight(node, S);
    RotateRightLinks(old(Snap(S)), Snap(S), t);
  }

  lemma RightSite(S: set<Node>, t: Shape)
    requires t.Branch? && t.left.Branch? && Nodes(t) <= S && Distinct(t) && Wired(Snap(S), t)
    ensures RightRotatable(t.elem, S)
  {
    hide Nodes;
    hide Distinct;
    var m, u := Snap(S), t.left;
    Parts(t);
    Parts(u);
    TopIsNode(u.left);
    TopIsNode(u.right);
    TopIsNode(t.right);
    assert Linked(m, u, null);
    assert m[t.elem] == CellOf(t.elem) && m[u.elem] == CellOf(u.elem);
  }

  /** `m'` is `m` with the colours of a node and its two children toggled. */
  ghost predicate Flipped(m: Store, m': Store, node: Node, left: Node, right: Node) {
    && node in m && left in m && right in m && m'.Keys == m.Keys
    && m'[node] == m[node].(red := !m[node].red)
    && m'[left] == m[left].(red := !m[left].red)
    && m'[right] == m[right].(red := !m[right].red)
    && forall n :: n in m && n != node && n != left && n != right ==> m'[n] == m[n]
  }

  lemma FlipLinks(m: Store, m': Store, t: Shape)
    requires t.Branch? && t.left.Branch? && t.right.Branch? && Distinct(t) && Wired(m, t)
    requires Flipped(m, m', t.elem, t.left.elem, t.right.elem)
    ensures Wired(m', RB.FlipColors(t)) && Kept(m, m', Nodes(t))
    ensures Linked(m, t, null) ==> Linked(m', RB.FlipColors(t), null)
    ensures Nodes(RB.FlipColors(t)) == Nodes(t) && Distinct(RB.FlipColors(t))
  {
    assert InOrder(RB.FlipColors(t)) == InOrder(t);
    assert Nodes(RB.FlipColors(t)) == Nodes(t) && Distinct(RB.FlipColors(t));
    hide Nodes;
    hide Distinct;
    Parts(t);
    TopIsNode(t.left);
    TopIsNode(t.right);
    RecolorLinks(m, m', t.left, !t.left.red);
    RecolorLinks(m, m', t.right, !t.right.red);
  }

  method FlipColors(node: Node, ghost S: set<Node>, ghost t: Shape)
    requires t.Branch? && t.left.Branch? && t.right.Branch? && t.elem == node && Nodes(t) <= S
    requires Distinct(t) && Wired(Snap(S), t)
    modifies S
    ensures Wired(Snap(S), RB.FlipColors(t)) && Kept(old(Snap(S)), Snap(S), Nodes(t))
    ensures old(Linked(Snap(S), t, null)) ==> Linked(Snap(S), RB.FlipColors(t), null)
    ensures Nodes(RB.FlipColors(t)) == Nodes(t) && Distinct(RB.FlipColors(t))
  {
    Parts(t);
    TopIsNode(t.left);
    TopIsNode(t.right);
    hide Nodes;
    hide Linked;
    hide Distinct;
    assert Snap(S)[node] == CellOf(node);
    Toggle(node, S);
    FlipLinks(old(Snap(S)), Snap(S), t);
  }

  method Toggle(node: Node, ghost S: set<Node>)
    requires node in S && node.left != null && node.left in S && node.right != null && node.right in S
    requires node != node.left && node != node.right && node.left != node.right
    modifies S
    ensures Flipped(old(Snap(S)), Snap(S), node, old(node.left), old(node.right))
  {
    node.isRed := !node.isRed;
    node.left.isRed := !node.left.isRed;
    node.right.isRed := !node.right.isRed;
  }

  // ---- Replacing a child -----------------------------------------------------------------

  /** `m'` is `m` with `child` linked below `node`, on its left or on its right. */
  ghost predicate Adopted(m: Store, m': Store, node: Node, left: Node?, right: Node?, child: Node?) {
    && node in m && m'.Keys == m.Keys && child != node
    && m'[node] == m[node].(left := left, right := right)
    && forall n :: n in m && n != node ==> m'[n] == if n == child then m[n].(parent := node) else m[n]
  }

  /** Replacing the left subtree of `t` by `l`, of which `m` knew nothing and `m'` does. */
  lemma GraftLeft(m: Store, m': Store, m'': Store, t: Shape, l: Shape)
    requires t.Branch? && Distinct(t) && Distinct(t.(left := l)) && Wired(m, t) && Linked(m', l, null)
    requires Same(m, m', Nodes(t.right) + {t.elem})
    requires Adopted(m', m'', t.elem, Top(l), m[t.elem].right, Top(l))
    ensures Wired(m'', t.(left := l)) && Kept(m', m'', Nodes(l) + {t.elem})
  {
    hide Nodes;
    hide Distinct;
    Parts(t);
    Parts(t.(left := l));
    TopIsNode(l);
    TopIsNode(t.right);
    Frame(m, m'', t.right, null);
    Frame(m', m'', l, null);
  }

  lemma GraftRight(m: Store, m': Store, m'': Store, t: Shape, r: Shape)
    requires t.Branch? && Distinct(t) && Distinct(t.(right := r)) && Wired(m, t) && Linked(m', r, null)
    requires Same(m, m', Nodes(t.left) + {t.elem})
    requires Adopted(m', m'', t.elem, m[t.elem].left, Top(r), Top(r))
    ensures Wired(m'', t.(right := r)) && Kept(m', m'', Nodes(r) + {t.elem})
  {
    hide Nodes;
    hide Distinct;
    Parts(t);
    Parts(t.(right := r));
    TopIsNode(r);
    TopIsNode(t.left);
    Frame(m, m'', t.left, null);
    Frame(m', m'', r, null);
  }

  method SetLeft(node: Node, child: Node?, ghost S: set<Node>, ghost m: Store, ghost t: Shape, ghost l: Shape)
    requires t.Branch? && t.elem == node && node in S && child == Top(l) && Nodes(l) <= S
    requires Distinct(t) && Distinct(t.(left := l)) && Wired(m, t) && Linked(Snap(S), l, null)
    requires Same(m, Snap(S), Nodes(t.right) + {node})
    modifies S
    ensures Wired(Snap(S), t.(left := l)) && Kept(old(Snap(S)), Snap(S), Nodes(l) + {node})
  {
    Parts(t.(left := l));
    TopIsNode(l);
    hide Nodes;
    hide Distinct;
    hide Linked;
    ghost var m' := Snap(S);
    node.left := child;
    if child != null {
      child.parent := node;
    }
    assert Snap(S)[node] == CellOf(node);
    GraftLeft(m, m', Snap(S), t, l);
  }

  method SetRight(node: Node, child: Node?, ghost S: set<Node>, ghost m: Store, ghost t: Shape, ghost r: Shape)
    requires t.Branch? && t.elem == node && node in S && child == Top(r) && Nodes(r) <= S
    requires Distinct(t) && Distinct(t.(right := r)) && Wired(m, t) && Linked(Snap(S), r, null)
    requires Same(m, Snap(S), Nodes(t.left) + {node})
    modifies S
    ensures Wired(Snap(S), t.(right := r)) && Kept(old(Snap(S)), Snap(S), Nodes(r) + {node})
  {
    Parts(t.(right := r));
    TopIsNode(r);
    hide Nodes;
    hide Distinct;
    hide Linked;
    ghost var m' := Snap(S);
    node.right := child;
    if child != null {
      child.parent := node;
    }
    assert Snap(S)[node] == CellOf(node);
    GraftRight(m, m', Snap(S), t, r);
  }

  // ---- Rebalancing ---------------------------------------------------------------------------

  /** Colours read through the pointers are the colours of the shape. */
  lemma Colours(S: set<Node>, t: Shape)
    requires t.Branch? && Nodes(t) <= S && Wired(Snap(S), t)
    ensures t.elem.left == Top(t.left) && t.elem.right == Top(t.right)
    ensures IsRedNode(Top(t.left)) == IsRed(t.left) && IsRedNode(Top(t.right)) == IsRed(t.right)
    ensures t.left.Branch? ==>
              && t.left.elem.left == Top(t.left.left) && IsRedNode(Top(t.left.left)) == IsRed(t.left.left)
    ensures t.right.Branch? ==>
              && t.right.elem.left == Top(t.right.left) && IsRedNode(Top(t.right.left)) == IsRed(t.right.left)
  {
    hide Nodes;
    Parts(t);
    var m := Snap(S);
    assert m[t.elem] == CellOf(t.elem);
    if t.left.Branch? {
      Parts(t.left);
      TopIsNode(t.left.left);
      assert Linked(m, t.left, null);
      assert m[t.left.elem] == CellOf(t.left.elem);
      if t.left.left.Branch? { assert Linked(m, t.left.left, null) && m[t.left.left.elem] == CellOf(t.left.left.elem); }
    }
    if t.right.Branch? {
      Parts(t.right);
      TopIsNode(t.right.left);
      assert Linked(m, t.right, null);
      assert m[t.right.elem] == CellOf(t.right.elem);
      if t.right.left.Branch? {
        assert Linked(m, t.right.left, null) && m[t.right.left.elem] == CellOf(t.right.left.elem);
      }
    }
  }

  lemma KeptTrans(m: Store, m': Store, m'': Store, S: set<Node>, S': set<Node>)
    requires Kept(m, m', S) && Kept(m', m'', S') && S' <= S
    ensures Kept(m, m'', S)
  {
  }

  lemma RefreshLinks(m: Store, m': Store, t: Shape)
    requires t.Branch? && Distinct(t) && Wired(m, t)
    requires m' == m[t.elem := Refreshed(m, m[t.elem])]
    ensures Linked(m', t, null) && Kept(m, m', Nodes(t))
  {
    hide Nodes;
    hide Distinct;
    Parts(t);
    TopIsNode(t.left);
    TopIsNode(t.right);
    Frame(m, m', t.left, null);
    Frame(m, m', t.right, null);
    Settle(m', t);
  }

  method Refresh(node: Node, ghost S: set<Node>, ghost t: Shape)
    requires t.Branch? && t.elem == node && Nodes(t) <= S && Distinct(t) && Wired(Snap(S), t)
    modifies S
    ensures Linked(Snap(S), t, null) && Kept(old(Snap(S)), Snap(S), Nodes(t))
  {
    Parts(t);
    TopIsNode(t.left);
    TopIsNode(t.right);
    Colours(S, t);
    hide Nodes;
    hide Distinct;
    hide Linked;
    ghost var m := Snap(S);
    UpdateNode(node);
    assert Snap(S) == m[node := Refreshed(m, m[node])];
    RefreshLinks(m, Snap(S), t);
  }

  lemma LinkedIsWired(m: Store, t: Shape)
    requires t.Branch? && Linked(m, t, null)
    ensures Wired(m, t)
  {
  }

  method FixUp(node: Node, ghost S: set<Node>, ghost t: Shape) returns (r: Node)
    requires t.Branch? && t.elem == node && Nodes(t) <= S && Distinct(t) && Wired(Snap(S), t)
    modifies S
    ensures r == RB.FixUp(t).elem && Linked(Snap(S), RB.FixUp(t), null)
    ensures Kept(old(Snap(S)), Snap(S), Nodes(t))
    ensures Nodes(RB.FixUp(t)) == Nodes(t) && Distinct(RB.FixUp(t))
  {
    KeptTrivially(Snap(S), Nodes(t));
    hide Nodes, Distinct, Linked, Wired, Kept, Snap;
    r := node;
    ghost var u := t;
    Colours(S, u);
    if IsRedNode(r.right) && !IsRedNode(r.left) {
      r := RotateLeft(r, S, u);
      u := RB.RotateLeft(u);
      LinkedIsWired(Snap(S), u);
      Colours(S, u);
    }
    assert u == LeanLeft(t);
    ghost var m := Snap(S);
    if IsRedNode(r.left) && IsRedNode(r.left.left) {
      r := RotateRight(r, S, u);
      u := RB.RotateRight(u);
      KeptTrans(old(Snap(S)), m, Snap(S), Nodes(t), Nodes(t));
      LinkedIsWired(Snap(S), u);
      Colours(S, u);
    }
    assert u == Straighten(LeanLeft(t));
    m := Snap(S);
    if IsRedNode(r.left) && IsRedNode(r.right) {
      FlipColors(r, S, u);
      u := RB.FlipColors(u);
      KeptTrans(old(Snap(S)), m, Snap(S), Nodes(t), Nodes(t));
    }
    m := Snap(S);
    Refresh(r, S, u);
    KeptTrans(old(Snap(S)), m, Snap(S), Nodes(t), Nodes(t));
  }

  lemma KeptTrivially(m: Store, S: set<Node>)
    ensures Kept(m, m, S)
  {
  }

  method MoveRedLeft(node: Node, ghost S: set<Node>, ghost t: Shape) returns (r: Node)
    requires t.Branch? && t.left.Branch? && t.right.Branch? && t.elem == node && Nodes(t) <= S
    requires Distinct(t) && Linked(Snap(S), t, null)
    modifies S
    ensures r == RB.MoveRedLeft(t).elem && Linked(Snap(S), RB.MoveRedLeft(t), null)
    ensures Kept(old(Snap(S)), Snap(S), Nodes(t))
    ensures Nodes(RB.MoveRedLeft(t)) == Nodes(t) && Distinct(RB.MoveRedLeft(t))
  {
    LinkedIsWired(Snap(S), t);
    hide Nodes, Distinct, Linked, Wired, Kept, Snap;
    r := node;
    FlipColors(r, S, t);
    ghost var f := RB.FlipColors(t);
    ghost var m := Snap(S);
    Colours(S, f);
    if IsRedNode(r.right.left) {
      r := BorrowLeft(r, S, f);
      ghost var h := RB.RotateLeft(f.(right := RB.RotateRight(f.right)));
      ghost var m' := Snap(S);
      KeptTrans(old(Snap(S)), m, m', Nodes(t), Nodes(t));
      LinkedIsWired(m', h);
      FlipColors(r, S, h);
      KeptTrans(old(Snap(S)), m', Snap(S), Nodes(t), Nodes(t));
    }
  }

  method BorrowLeft(node: Node, ghost S: set<Node>, ghost f: Shape) returns (r: Node)
    requires f.Branch? && f.right.Branch? && f.right.left.Branch? && f.elem == node && Nodes(f) <= S
    requires Distinct(f) && Linked(Snap(S), f, null)
    modifies S
    ensures var h := RB.RotateLeft(f.(right := RB.RotateRight(f.right)));
            && r == h.elem && Linked(Snap(S), h, null) && Nodes(h) == Nodes(f) && Distinct(h)
    ensures Kept(old(Snap(S)), Snap(S), Nodes(f))
  {
    ghost var m := Snap(S);
    ghost var g := f.(right := RB.RotateRight(f.right));
    LinkedIsWired(m, f);
    RightLinked(m, f);
    Colours(S, f);
    Parts(f);
    RotateRightSequence(f.right);
    SameSequence(f, g);
    hide Nodes, Distinct, Linked, Wired, Snap;
    var child := RotateRight(node.right, S, f.right);
    ghost var m' := Snap(S);
    SetRight(node, child, S, m, f, g.right);
    ghost var m'' := Snap(S);
    r := RotateLeft(node, S, g);
  }

  lemma RightLinked(m: Store, t: Shape)
    requires t.Branch? && Wired(m, t)
    ensures t.right.Branch? ==> Wired(m, t.right)
  {
    if t.right.Branch? {
      LinkedIsWired(m, t.right);
    }
  }

  /** Replacing a subtree by one with the same sequence changes neither nodes nor distinctness. */
  lemma SameSequence(t: Shape, u: Shape)
    requires t.Branch? && u.Branch? && t.elem == u.elem
    requires InOrder(t.left) == InOrder(u.left) && InOrder(t.right) == InOrder(u.right)
    ensures Nodes(t) == Nodes(u) && Distinct(t) == Distinct(u)
    ensures Nodes(t.left) == Nodes(u.left) && Nodes(t.right) == Nodes(u.right)
  {
  }

  method MoveRedRight(node: Node, ghost S: set<Node>, ghost t: Shape) returns (r: Node)
    requires t.Branch? && t.left.Branch? && t.right.Branch? && t.elem == node && Nodes(t) <= S
    requires Distinct(t) && Linked(Snap(S), t, null)
    modifies S
    ensures r == RB.MoveRedRight(t).elem && Linked(Snap(S), RB.MoveRedRight(t), null)
    ensures Kept(old(Snap(S)), Snap(S), Nodes(t))
    ensures Nodes(RB.MoveRedRight(t)) == Nodes(t) && Distinct(RB.MoveRedRight(t))
  {
    LinkedIsWired(Snap(S), t);
    hide Nodes, Distinct, Linked, Wired, Kept, Snap;
    r := node;
    FlipColors(r, S, t);
    ghost var f := RB.FlipColors(t);
    ghost var m := Snap(S);
    Colours(S, f);
    if IsRedNode(r.left.left) {
      r := RotateRight(r, S, f);
      ghost var h := RB.RotateRight(f);
      ghost var m' := Snap(S);
      KeptTrans(old(Snap(S)), m, m', Nodes(t), Nodes(t));
      LinkedIsWired(m', h);
      FlipColors(r, S, h);
      KeptTrans(old(Snap(S)), m', Snap(S), Nodes(t), Nodes(t));
    }
  }

  // ---- Insertion ------------------------------------------------------------------------------

  ghost function Single(n: Node): (t: Shape) {
    Branch(Leaf, n, true, Leaf)
  }

  lemma CountIsSize(S: set<Node>, t: Shape)
    requires Nodes(t) <= S && Linked(Snap(S), t, null) && t.Branch?
    ensures t.elem.left == Top(t.left) && t.elem.right == Top(t.right)
    ensures t.elem.LeftCount() == Size(t.left)
    ensures Linked(Snap(S), t.left, null) && Linked(Snap(S), t.right, null)
  {
    hide Nodes;
    Parts(t);
    TopIsNode(t.left);
    var m := Snap(S);
    assert m[t.elem] == CellOf(t.elem);
    if t.left.Branch? {
      assert Linked(m, t.left, null) && m[t.left.elem] == CellOf(t.left.elem);
    }
  }

  /** What an insertion of `x` does to the nodes of a tree and of its subtrees. */
  lemma InsertNodes(t: Shape, i: nat, x: Node)
    requires i <= Size(t) && Distinct(t) && x !in Nodes(t)
    ensures Nodes(Insert(t, i, x)) == Nodes(t) + {x} && Distinct(Insert(t, i, x))
  {
    SizeIsLength(t);
    InsertSequence(t, i, x);
    SpliceMembers(InOrder(t), i, x);
  }

  lemma SpliceMembers(s: seq<Node>, i: nat, x: Node)
    requires i <= |s|
    ensures forall n :: n in Splice(s, i, x) <==> n in s || n == x
    ensures Unique(s) && x !in s ==> Unique(Splice(s, i, x))
  {
    var r := Splice(s, i, x);
    assert forall k :: 0 <= k < i ==> r[k] == s[k];
    assert r[i] == x;
    assert forall k :: i <= k < |s| ==> r[k + 1] == s[k];
  }

  lemma DistinctParts(t: Shape)
    requires t.Branch? && Distinct(t.left) && Distinct(t.right)
    requires t.elem !in Nodes(t.left) && t.elem !in Nodes(t.right) && Nodes(t.left) !! Nodes(t.right)
    ensures Distinct(t)
  {
    var a, b, s := InOrder(t.left), InOrder(t.right), InOrder(t);
    assert s == a + [t.elem] + b;
    forall i, j | 0 <= i < j < |s| ensures s[i] != s[j] {
      assert s[j] == if j < |a| then a[j] else if j == |a| then t.elem else b[j - |a| - 1];
      assert s[i] in Nodes(t.left) || i >= |a|;
      if i < |a| < j { assert s[j] in Nodes(t.right); }
      if i == |a| { assert s[j] in Nodes(t.right); }
    }
  }

  lemma KeptSame(m: Store, m': Store, S: set<Node>, T: set<Node>)
    requires Kept(m, m', S) && S !! T
    ensures Same(m, m', T)
  {
  }

  lemma KeptMore(m: Store, m': Store, m'': Store, S: set<Node>, S': set<Node>, T: set<Node>)
    requires Kept(m, m', S) && Kept(m', m'', S') && S + S' <= T
    ensures Kept(m, m'', T)
  {
  }

  /** Links `child` in as the left subtree `l` and repairs the node above it. */
  method ReplaceLeft(node: Node, child: Node?, ghost S: set<Node>, ghost m: Store, ghost N: set<Node>,
                     ghost t: Shape, ghost l: Shape) returns (r: Node)
    requires t.Branch? && t.elem == node && child == Top(l) && Nodes(t) + Nodes(l) <= S
    requires Distinct(t) && Distinct(l) && Wired(m, t) && Linked(Snap(S), l, null)
    requires Kept(m, Snap(S), N) && Nodes(l) <= N && N !! Nodes(t.right) + {node}
    modifies S
    ensures var u := RB.FixUp(t.(left := l));
            && r == u.elem && Linked(Snap(S), u, null) && Nodes(u) == Nodes(t.(left := l)) && Distinct(u)
    ensures Kept(m, Snap(S), N + Nodes(t.right) + {node})
  {
    ghost var u := t.(left := l);
    Parts(t);
    Parts(u);
    hide Nodes, Distinct, Linked, Wired, Snap, Kept, Same, RB.FixUp;
    DistinctParts(u);
    KeptSame(m, Snap(S), N, Nodes(t.right) + {node});
    ghost var m0 := Snap(S);
    SetLeft(node, child, S, m, t, l);
    ghost var m1 := Snap(S);
    r := FixUp(node, S, u);
    KeptMore(m, m0, m1, N, Nodes(l) + {node}, N + Nodes(t.right) + {node});
    KeptMore(m, m1, Snap(S), N + Nodes(t.right) + {node}, Nodes(u), N + Nodes(t.right) + {node});
  }

  method ReplaceRight(node: Node, child: Node?, ghost S: set<Node>, ghost m: Store, ghost N: set<Node>,
                      ghost t: Shape, ghost l: Shape) returns (r: Node)
    requires t.Branch? && t.elem == node && child == Top(l) && Nodes(t) + Nodes(l) <= S
    requires Distinct(t) && Distinct(l) && Wired(m, t) && Linked(Snap(S), l, null)
    requires Kept(m, Snap(S), N) && Nodes(l) <= N && N !! Nodes(t.left) + {node}
    modifies S
    ensures var u := RB.FixUp(t.(right := l));
            && r == u.elem && Linked(Snap(S), u, null) && Nodes(u) == Nodes(t.(right := l)) && Distinct(u)
    ensures Kept(m, Snap(S), N + Nodes(t.left) + {node})
  {
    ghost var u := t.(right := l);
    Parts(t);
    Parts(u);
    hide Nodes, Distinct, Linked, Wired, Snap, Kept, Same, RB.FixUp;
    DistinctParts(u);
    KeptSame(m, Snap(S), N, Nodes(t.left) + {node});
    ghost var m0 := Snap(S);
    SetRight(node, child, S, m, t, l);
    ghost var m1 := Snap(S);
    r := FixUp(node, S, u);
    KeptMore(m, m0, m1, N, Nodes(l) + {node}, N + Nodes(t.left) + {node});
    KeptMore(m, m1, Snap(S), N + Nodes(t.left) + {node}, Nodes(u), N + Nodes(t.left) + {node});
  }

  method InsertByCount(node: Node?, index: nat, newNode: Node, ghost S: set<Node>, ghost t: Shape) returns (r: Node)
    requires node == Top(t) && Nodes(t) <= S && Distinct(t) && Linked(Snap(S), t, null) && index <= Size(t)
    requires newNode in S && newNode !in Nodes(t) && Linked(Snap(S), Single(newNode), null)
    modifies S
    ensures r == Insert(t, index, newNode).elem && Linked(Snap(S), Insert(t, index, newNode), null)
    ensures Kept(old(Snap(S)), Snap(S), Nodes(t) + {newNode})
    decreases t
  {
    if node == null {
      r := newNode;
    } else {
      CountIsSize(S, t);
      ghost var m := Snap(S);
      InsertSites(m, S, t, newNode);
      InsertStep(t, index, newNode);
      hide Nodes, Distinct, Linked, Wired, Snap, Kept, RB.FixUp, InOrder, RB.Insert;
      if index <= node.LeftCount() {
        var child := InsertByCount(node.left, index, newNode, S, t.left);
        InsertNodes(t.left, index, newNode);
        r := ReplaceLeft(node, child, S, m, Nodes(t.left) + {newNode}, t, Insert(t.left, index, newNode));
      } else {
        var i := index - node.LeftCount() - 1;
        assert i == index - Size(t.left) - 1;
        var child := InsertByCount(node.right, i, newNode, S, t.right);
        InsertNodes(t.right, i, newNode);
        r := ReplaceRight(node, child, S, m, Nodes(t.right) + {newNode}, t, Insert(t.right, i, newNode));
      }
    }
  }

  lemma InsertStep(t: Shape, i: nat, x: Node)
    requires t.Branch? && i <= Size(t)
    ensures i <= Size(t.left) ==> Insert(t, i, x) == RB.FixUp(t.(left := Insert(t.left, i, x)))
    ensures i > Size(t.left) ==>
              && i - Size(t.left) - 1 <= Size(t.right)
              && Insert(t, i, x) == RB.FixUp(t.(right := Insert(t.right, i - Size(t.left) - 1, x)))
  {
    hide RB.FixUp;
  }

  lemma InsertSites(m: Store, S: set<Node>, t: Shape, x: Node)
    requires t.Branch? && Nodes(t) <= S && Distinct(t) && Linked(m, t, null) && x in S && x !in Nodes(t)
    ensures Wired(m, t) && Distinct(t.left) && Distinct(t.right) && x !in Nodes(t.left) && x !in Nodes(t.right)
    ensures Nodes(t.left) <= S && Nodes(t.right) <= S && t.elem in S
    ensures Nodes(t) + (Nodes(t.left) + {x}) <= S && Nodes(t) + (Nodes(t.right) + {x}) <= S
    ensures Nodes(t.left) + {x} !! Nodes(t.right) + {t.elem}
    ensures Nodes(t.right) + {x} !! Nodes(t.left) + {t.elem}
    ensures Nodes(t.left) + {x} + Nodes(t.right) + {t.elem} == Nodes(t) + {x}
    ensures Nodes(t.right) + {x} + Nodes(t.left) + {t.elem} == Nodes(t) + {x}
  {
    LinkedIsWired(m, t);
    Parts(t);
    hide *;
    assert Nodes(t) == Nodes(t.left) + {t.elem} + Nodes(t.right);
  }

  // ---- Deletion -------------------------------------------------------------------------------

  lemma RemoveMinNodes(t: Shape)
    requires Ready(t) && Distinct(t)
    ensures First(t) in Nodes(t) && Nodes(RemoveMin(t)) == Nodes(t) - {First(t)} && Distinct(RemoveMin(t))
  {
    RemoveMinSequence(t);
    var s, r := InOrder(t), InOrder(RemoveMin(t));
    assert s[0] == First(t) && forall k :: 0 <= k < |r| ==> s[k + 1] == r[k];
  }

  lemma DeleteNodes(t: Shape, i: nat)
    requires ReadyAt(t, i) && Distinct(t)
    ensures i < |InOrder(t)| && Nodes(Delete(t, i)) == Nodes(t) - {InOrder(t)[i]} && Distinct(Delete(t, i))
  {
    DeleteSequence(t, i);
    CutMembers(InOrder(t), i);
    hide Delete, InOrder;
  }

  lemma CutMembers(s: seq<Node>, i: nat)
    requires i < |s| && Unique(s)
    ensures Unique(Cut(s, i)) && forall n :: n in Cut(s, i) <==> n in s && n != s[i]
  {
    var r := Cut(s, i);
    assert forall k :: 0 <= k < i ==> s[k] == r[k];
    assert forall k :: i <= k < |r| ==> s[k + 1] == r[k];
    assert forall k :: i < k < |s| ==> r[k - 1] == s[k];
  }

  /** The leftmost node of a subtree. */
  method MinNode(node: Node, ghost S: set<Node>, ghost t: Shape) returns (r: Node)
    requires t.Branch? && t.elem == node && Nodes(t) <= S && Linked(Snap(S), t, null)
    ensures r == First(t)
  {
    r := node;
    ghost var u := t;
    CountIsSize(S, u);
    while r.left != null
      invariant u.Branch? && u.elem == r && First(u) == First(t)
      invariant Nodes(u) <= S && Linked(Snap(S), u, null) && r.left == Top(u.left)
      decreases u
    {
      Parts(u);
      r := r.left;
      u := u.left;
      CountIsSize(S, u);
    }
  }

  /** The step down to the left: `moveRedLeft` when the left side has no red link. */
  method OpenLeft(node: Node, ghost S: set<Node>, ghost t: Shape) returns (r: Node)
    requires Ready(t) && t.left.Branch? && t.elem == node && Nodes(t) <= S
    requires Distinct(t) && Linked(Snap(S), t, null)
    modifies S
    ensures r == PrepareLeft(t).elem && Linked(Snap(S), PrepareLeft(t), null)
    ensures Kept(old(Snap(S)), Snap(S), Nodes(t))
    ensures Nodes(PrepareLeft(t)) == Nodes(t) && Distinct(PrepareLeft(t))
  {
    KeptTrivially(Snap(S), Nodes(t));
    LinkedIsWired(Snap(S), t);
    Colours(S, t);
    hide Nodes, Distinct, Linked, Wired, Snap, Kept;
    r := node;
    if !IsRedNode(r.left) && !IsRedNode(r.left.left) {
      r := MoveRedLeft(r, S, t);
    }
  }

  /** What a caller about to replace the left subtree of `u` needs to know about its nodes. */
  lemma LeftSites(m: Store, m': Store, S: set<Node>, t: Shape, u: Shape)
    requires t.Branch? && u.Branch? && Nodes(u) == Nodes(t) <= S && Distinct(u) && Linked(m', u, null)
    ensures Wired(m', u) && Distinct(u.left) && Nodes(u.left) <= S && u.elem in S && Linked(m', u.left, null)
    ensures Nodes(u.left) !! Nodes(u.right) + {u.elem}
    ensures Nodes(u.left) + Nodes(u.right) + {u.elem} == Nodes(t)
    ensures Distinct(u.right) && Nodes(u.right) <= S && Linked(m', u.right, null)
    ensures Nodes(u.right) !! Nodes(u.left) + {u.elem}
    ensures Nodes(u.right) + Nodes(u.left) + {u.elem} == Nodes(t)
  {
    LinkedIsWired(m', u);
    Parts(u);
    hide Nodes, Distinct;
  }

  method RemoveMinNode(node: Node, ghost S: set<Node>, ghost t: Shape) returns (r: Node?)
    requires Ready(t) && t.elem == node && Nodes(t) <= S && Distinct(t) && Linked(Snap(S), t, null)
    modifies S
    ensures r == Top(RemoveMin(t)) && Linked(Snap(S), RemoveMin(t), null)
    ensures Kept(old(Snap(S)), Snap(S), Nodes(t))
    decreases Size(t)
  {
    CountIsSize(S, t);
    if node.left == null {
      return null;
    }
    hide Nodes, Distinct, Linked, Wired, Snap, Kept, RB.FixUp;
    PrepareLeftOpens(t);
    ghost var u := PrepareLeft(t);
    var n := OpenLeft(node, S, t);
    ghost var m := Snap(S);
    CountIsSize(S, u);
    LeftSites(m, m, S, t, u);
    var child := RemoveMinNode(n.left, S, u.left);
    RemoveMinNodes(u.left);
    r := ReplaceLeft(n, child, S, m, Nodes(u.left), u, RemoveMin(u.left));
    KeptMore(old(Snap(S)), m, Snap(S), Nodes(t), Nodes(t), Nodes(t));
  }

  /** `m'` is `m` with `successor` in the place of `node`, above `left` and `right`. */
  ghost predicate Swapped(m: Store, m': Store, node: Node, successor: Node, left: Node?, right: Node?) {
    && node in m && successor in m && node != successor && m'.Keys == m.Keys
    && m'[successor] == m[successor].(left := left, right := right, red := m[node].red)
    && m'[node] == m[node].(left := null, right := null, parent := null)
    && forall n :: n in m && n != node && n != successor ==>
         m'[n] == if n == left || n == right then m[n].(parent := successor) else m[n]
  }

  ghost function Promoted(v: Shape, r: Shape): (w: Shape)
    requires v.Branch? && v.right.Branch?
  {
    v.(elem := First(v.right), right := r)
  }

  lemma PromotedNodes(v: Shape, r: Shape)
    requires v.Branch? && v.right.Branch? && Distinct(v) && Distinct(r)
    requires First(v.right) in Nodes(v.right) && Nodes(r) == Nodes(v.right) - {First(v.right)}
    ensures Distinct(Promoted(v, r)) && Nodes(Promoted(v, r)) == Nodes(v) - {v.elem}
    ensures v.elem !in Nodes(v.left) + Nodes(r) && First(v.right) !in Nodes(v.left) + Nodes(r)
    ensures First(v.right) in Nodes(v) && First(v.right) != v.elem && Nodes(v.left) !! Nodes(r)
    ensures Nodes(v.left) !! Nodes(v.right) && Distinct(v.left) && Nodes(v.left) <= Nodes(v)
    ensures Nodes(r) <= Nodes(v)
  {
    Parts(v);
    Parts(Promoted(v, r));
    hide Nodes, Distinct;
    DistinctParts(Promoted(v, r));
  }

  lemma SwapLinks(m: Store, m': Store, m'': Store, v: Shape, r: Shape)
    requires v.Branch? && v.right.Branch? && Distinct(v) && Linked(m, v, null) && Linked(m', r, null) && Distinct(r)
    requires First(v.right) in Nodes(v.right) && Nodes(r) == Nodes(v.right) - {First(v.right)}
    requires Same(m, m', Nodes(v.left) + {v.elem})
    requires Swapped(m', m'', v.elem, First(v.right), Top(v.left), Top(r))
    ensures Wired(m'', Promoted(v, r)) && Kept(m', m'', Nodes(v))
  {
    PromotedNodes(v, r);
    LinkedIsWired(m, v);
    TopIsNode(v);
    TopIsNode(v.left);
    TopIsNode(r);
    hide Nodes, Distinct, Linked, First;
    Frame(m, m', v.left, null);
    SwapFrames(m', m'', v.elem, First(v.right), v.left, r);
  }

  lemma SwapFrames(m: Store, m': Store, node: Node, successor: Node, l: Shape, r: Shape)
    requires Swapped(m, m', node, successor, Top(l), Top(r)) && Distinct(l) && Distinct(r)
    requires node !in Nodes(l) + Nodes(r) && successor !in Nodes(l) + Nodes(r) && Nodes(l) !! Nodes(r)
    requires Linked(m, l, null) && Linked(m, r, null)
    ensures Linked(m', l, null) && Linked(m', r, null) && ChildOf(m', l, successor) && ChildOf(m', r, successor)
  {
    TopIsNode(l);
    TopIsNode(r);
    hide Nodes, Distinct;
    Frame(m, m', l, null);
    Frame(m, m', r, null);
  }

  method Usurp(node: Node, successor: Node, right: Node?)
    requires node != successor
    requires right != null ==> right != node && right != successor && right != node.left
    requires node.left != node && node.left != successor
    modifies node, successor, node.left, right
    ensures CellOf(successor) == old(CellOf(successor)).(left := old(node.left), right := right, red := old(node.isRed))
    ensures CellOf(node) == old(CellOf(node)).(left := null, right := null, parent := null)
    ensures old(node.left) != null ==> CellOf(old(node.left)) == old(CellOf(node.left)).(parent := successor)
    ensures right != null ==> CellOf(right) == old(CellOf(right)).(parent := successor)
  {
    successor.left := node.left;
    successor.right := right;
    successor.isRed := node.isRed;
    if successor.left != null {
      successor.left.parent := successor;
    }
    if successor.right != null {
      successor.right.parent := successor;
    }
    node.left := null;
    node.right := null;
    node.parent := null;
  }

  method SwapSuccessor(node: Node, successor: Node, right: Node?, ghost S: set<Node>)
    requires node in S && successor in S && node != successor
    requires right != null ==> right in S && right != node && right != successor && right != node.left
    requires node.left != null ==> node.left in S && node.left != node && node.left != successor
    modifies S
    ensures Swapped(old(Snap(S)), Snap(S), node, successor, old(node.left), right)
  {
    ghost var m := Snap(S);
    Usurp(node, successor, right);
    ghost var m' := Snap(S);
    assert m'.Keys == m.Keys;
    assert m'[node] == CellOf(node) && m'[successor] == CellOf(successor);
  }

  /** The node itself goes: its successor takes its place. */
  method DeleteHere(node: Node, ghost S: set<Node>, ghost v: Shape) returns (r: Node)
    requires v.Branch? && v.elem == node && Nodes(v) <= S && Distinct(v) && Linked(Snap(S), v, null) && Ready(v.right)
    modifies S
    ensures var w := RB.FixUp(Promoted(v, RemoveMin(v.right)));
            r == w.elem && Linked(Snap(S), w, null)
    ensures Kept(old(Snap(S)), Snap(S), Nodes(v))
  {
    ghost var m := Snap(S);
    ghost var next := RemoveMin(v.right);
    CountIsSize(S, v);
    LeftSites(m, m, S, v, v);
    RemoveMinNodes(v.right);
    PromotedNodes(v, next);
    TopIsNode(v.left);
    TopIsNode(next);
    hide Nodes, Distinct, Linked, Wired, Snap, Kept, Same, RB.FixUp, RB.RemoveMin;
    var successor := MinNode(node.right, S, v.right);
    var newRight := RemoveMinNode(node.right, S, v.right);
    ghost var m' := Snap(S);
    KeptSame(m, m', Nodes(v.right), Nodes(v.left) + {node});
    assert node.left == Top(v.left) by { SameLeft(m, m', S, node, v); }
    SwapSuccessor(node, successor, newRight, S);
    ghost var m'' := Snap(S);
    SwapLinks(m, m', m'', v, next);
    r := FixUp(successor, S, Promoted(v, next));
    KeptMore(m, m', m'', Nodes(v.right), Nodes(v), Nodes(v));
    KeptMore(m, m'', Snap(S), Nodes(v), Nodes(v) - {node}, Nodes(v));
  }

  lemma SameLeft(m: Store, m': Store, S: set<Node>, node: Node, v: Shape)
    requires v.Branch? && v.elem == node && node in S && m' == Snap(S) && Wired(m, v)
    requires Same(m, m', Nodes(v.left) + {node})
    ensures node.left == Top(v.left)
  {
    assert m'[node] == CellOf(node);
  }

  method DeleteByCount(node: Node, index: nat, ghost S: set<Node>, ghost t: Shape) returns (r: Node?)
    requires ReadyAt(t, index) && t.elem == node && Nodes(t) <= S && Distinct(t) && Linked(Snap(S), t, null)
    modifies S
    ensures r == Top(Delete(t, index)) && Linked(Snap(S), Delete(t, index), null)
    ensures Kept(old(Snap(S)), Snap(S), Nodes(t))
    decreases Size(t), 2
  {
    CountIsSize(S, t);
    if index < node.LeftCount() {
      r := DeleteLeft(node, index, S, t);
    } else {
      KeptTrivially(Snap(S), Nodes(t));
      LinkedIsWired(Snap(S), t);
      Colours(S, t);
      LeanRightOpens(t);
      hide Nodes, Distinct, Linked, Wired, Snap, Kept, RB.FixUp;
      var n := node;
      if IsRedNode(n.left) {
        n := RotateRight(n, S, t);
      }
      ghost var m := Snap(S);
      ghost var u := LeanRight(t);
      CountIsSize(S, u);
      if index == n.LeftCount() && n.right == null {
        return null;
      }
      r := DeleteRight(n, index, S, t, u);
      KeptTrans(old(Snap(S)), m, Snap(S), Nodes(t), Nodes(t));
    }
  }

  method DeleteLeft(node: Node, index: nat, ghost S: set<Node>, ghost t: Shape) returns (r: Node?)
    requires ReadyAt(t, index) && t.elem == node && Nodes(t) <= S && Distinct(t) && Linked(Snap(S), t, null)
    requires index < Size(t.left)
    modifies S
    ensures r == Top(Delete(t, index)) && Linked(Snap(S), Delete(t, index), null)
    ensures Kept(old(Snap(S)), Snap(S), Nodes(t))
    decreases Size(t), 1
  {
    hide Nodes, Distinct, Linked, Wired, Snap, Kept, RB.FixUp;
    PrepareLeftOpens(t);
    ghost var u := PrepareLeft(t);
    var n := OpenLeft(node, S, t);
    ghost var m := Snap(S);
    CountIsSize(S, u);
    LeftSites(m, m, S, t, u);
    var child := DeleteByCount(n.left, index, S, u.left);
    DeleteNodes(u.left, index);
    r := ReplaceLeft(n, child, S, m, Nodes(u.left), u, Delete(u.left, index));
    KeptTrans(old(Snap(S)), m, Snap(S), Nodes(t), Nodes(t));
  }

  method DeleteRight(node: Node, index: nat, ghost S: set<Node>, ghost t: Shape, ghost u: Shape) returns (r: Node?)
    requires ReadyAt(t, index) && Size(t.left) <= index && u == LeanRight(t) && u.right.Branch?
    requires u.elem == node && Nodes(u) == Nodes(t) <= S && Distinct(u) && Linked(Snap(S), u, null)
    modifies S
    ensures r == Top(Delete(t, index)) && Linked(Snap(S), Delete(t, index), null)
    ensures Kept(old(Snap(S)), Snap(S), Nodes(t))
    decreases Size(t), 1
  {
    KeptTrivially(Snap(S), Nodes(t));
    LinkedIsWired(Snap(S), u);
    Colours(S, u);
    LeanRightOpens(t);
    PrepareRightOpens(t, index);
    hide Nodes, Distinct, Linked, Wired, Snap, Kept, RB.FixUp;
    var n := node;
    if !IsRedNode(n.right) && !IsRedNode(n.right.left) {
      n := MoveRedRight(n, S, u);
    }
    ghost var v := PrepareRight(t);
    ghost var m := Snap(S);
    r := DeleteFrom(n, index, S, v);
    KeptTrans(old(Snap(S)), m, Snap(S), Nodes(t), Nodes(t));
  }

  method DeleteFrom(node: Node, index: nat, ghost S: set<Node>, ghost v: Shape) returns (r: Node?)
    requires OpenAt(v, index) && v.elem == node && Nodes(v) <= S && Distinct(v) && Linked(Snap(S), v, null)
    modifies S
    ensures r == Top(DeleteBelow(v, index)) && Linked(Snap(S), DeleteBelow(v, index), null)
    ensures Kept(old(Snap(S)), Snap(S), Nodes(v))
    decreases Size(v), 0
  {
    CountIsSize(S, v);
    hide Nodes, Distinct, Linked, Wired, Snap, Kept, RB.FixUp;
    if index == node.LeftCount() {
      r := DeleteHere(node, S, v);
    } else {
      ghost var m := Snap(S);
      LeftSites(m, m, S, v, v);
      var i := index - node.LeftCount() - 1;
      assert i == index - Size(v.left) - 1;
      var child := DeleteByCount(node.right, i, S, v.right);
      DeleteNodes(v.right, i);
      r := ReplaceRight(node, child, S, m, Nodes(v.right), v, Delete(v.right, i));
    }
  }

  // ---- Walking up the parent links ----------------------------------------------------------

  /** The subtree of `t` rooted at `n`. */
  ghost function SubAt(t: Shape, n: Node): (u: Shape)
    requires n in Nodes(t)
    ensures u.Branch? && u.elem == n && Size(u) <= Size(t)
  {
    Parts(t);
    if t.elem == n then t else if n in Nodes(t.left) then SubAt(t.left, n) else SubAt(t.right, n)
  }

  lemma {:induction false} SubLinked(m: Store, t: Shape, n: Node, stale: Node?)
    requires n in Nodes(t) && Linked(m, t, stale)
    ensures Linked(m, SubAt(t, n), stale)
  {
    hide Nodes;
    TopIsNode(t);
    Parts(t);
    if t.elem != n {
      if n in Nodes(t.left) {
        SubLinked(m, t.left, n, stale);
      } else {
        SubLinked(m, t.right, n, stale);
      }
    }
  }

  /** `p` is the parent of `n` in `t`, on the side the links say. */
  ghost predicate Above(m: Store, t: Shape, n: Node, p: Node?)
    requires n in Nodes(t)
  {
    && p != null && p in Nodes(t) && p in m
    && var u := SubAt(t, p);
    && Size(SubAt(t, n)) < Size(u)
    && ((m[p].right != n && u.left == SubAt(t, n)) || (m[p].right == n && u.right == SubAt(t, n)))
  }

  lemma {:induction false} ParentIsAbove(m: Store, t: Shape, n: Node, stale: Node?)
    requires n in Nodes(t) && Distinct(t) && Linked(m, t, stale) && n != t.elem
    ensures n in m && Above(m, t, n, m[n].parent)
  {
    hide Nodes, Distinct;
    TopIsNode(t);
    Parts(t);
    TopIsNode(t.left);
    TopIsNode(t.right);
    if n in Nodes(t.left) {
      if n != t.left.elem {
        ParentIsAbove(m, t.left, n, stale);
        assert SubAt(t, n) == SubAt(t.left, n) && SubAt(t, m[n].parent) == SubAt(t.left, m[n].parent);
      } else {
        assert SubAt(t.left, n) == t.left;
      }
    } else if n != t.right.elem {
      ParentIsAbove(m, t.right, n, stale);
      assert SubAt(t, n) == SubAt(t.right, n) && SubAt(t, m[n].parent) == SubAt(t.right, m[n].parent);
    } else {
      assert SubAt(t.right, n) == t.right;
    }
  }

  lemma IndexStep(m: Store, S: set<Node>, t: Shape, cur: Node, index: nat, node: Node)
    requires m == Snap(S) && Nodes(t) <= S && cur in Nodes(t) && Distinct(t) && Linked(m, t, null)
    requires cur != t.elem && index < |InOrder(SubAt(t, cur))| && InOrder(SubAt(t, cur))[index] == node
    ensures cur.parent != null && cur.parent in Nodes(t) && Size(SubAt(t, cur)) < Size(SubAt(t, cur.parent))
    ensures cur.parent.LeftCount() >= 0
    ensures var p := cur.parent; var u := SubAt(t, p);
            var i := if cur == p.right then index + p.LeftCount() + 1 else index;
            i < |InOrder(u)| && InOrder(u)[i] == node
  {
    hide Linked, Distinct, Size;
    assert m[cur] == CellOf(cur);
    ParentIsAbove(m, t, cur, null);
    var p := cur.parent;
    var u := SubAt(t, p);
    assert m[p] == CellOf(p);
    SubLinked(m, t, p, null);
    SubNodes(t, p);
    CountIsSize(S, u);
    SizeIsLength(u.left);
  }

  method StructuralIndexOf(node: Node, ghost S: set<Node>, ghost t: Shape) returns (index: nat)
    requires node in Nodes(t) && Nodes(t) <= S && Distinct(t) && Linked(Snap(S), t, null) && t.elem.parent == null
    ensures index < |InOrder(t)| && InOrder(t)[index] == node
  {
    ghost var m := Snap(S);
    ghost var u := SubAt(t, node);
    SubLinked(m, t, node, null);
    SubNodes(t, node);
    CountIsSize(S, u);
    SizeIsLength(u.left);
    index := node.LeftCount();
    var cur := node;
    while cur.parent != null
      invariant cur in Nodes(t)
      invariant index < |InOrder(SubAt(t, cur))| && InOrder(SubAt(t, cur))[index] == node
      decreases Size(t) - Size(SubAt(t, cur))
    {
      IndexStep(m, S, t, cur, index, node);
      if cur == cur.parent.right {
        index := index + cur.parent.LeftCount() + 1;
      }
      cur := cur.parent;
    }
    if cur != t.elem {
      IndexStep(m, S, t, cur, index, node);
    }
  }

  lemma {:induction false} SubNodes(t: Shape, n: Node)
    requires n in Nodes(t)
    ensures Nodes(SubAt(t, n)) <= Nodes(t)
  {
    hide Nodes;
    TopIsNode(t);
    Parts(t);
    if t.elem != n {
      if n in Nodes(t.left) {
        SubNodes(t.left, n);
      } else {
        SubNodes(t.right, n);
      }
    }
  }

  lemma {:induction false} StaleElsewhere(m: Store, t: Shape, x: Node?, y: Node?)
    requires Linked(m, t, x) && (x == null || x !in Nodes(t))
    ensures Linked(m, t, y)
  {
    hide Nodes;
    if t.Branch? {
      Parts(t);
      StaleElsewhere(m, t.left, x, y);
      StaleElsewhere(m, t.right, x, y);
    }
  }

  /** `m` with the weight of `n` recomputed from its children. */
  ghost function Reweighed(m: Store, n: Node): (m': Store)
    requires n in m
  {
    m[n := m[n].(weight := WeightAt(m, m[n].left) + m[n].own + WeightAt(m, m[n].right))]
  }

  lemma StaleRoot(m: Store, t: Shape)
    requires t.Branch? && Distinct(t) && Linked(m, t, t.elem)
    ensures Linked(Reweighed(m, t.elem), t, null)
  {
    hide Nodes, Distinct;
    var m' := Reweighed(m, t.elem);
    Parts(t);
    TopIsNode(t.left);
    TopIsNode(t.right);
    StaleElsewhere(m, t.left, t.elem, null);
    StaleElsewhere(m, t.right, t.elem, null);
    Frame(m, m', t.left, null);
    Frame(m, m', t.right, null);
  }

  /** A change below `u`, one of the two subtrees of `t`, seen from `t`. */
  lemma StaleBelow(m: Store, t: Shape, n: Node, p: Node)
    requires t.Branch? && Distinct(t) && Linked(m, t, n) && n in m && n != t.elem && n in Nodes(t)
    requires n in Nodes(t.left) ==> Linked(Reweighed(m, n), t.left, p)
    requires n in Nodes(t.right) ==> Linked(Reweighed(m, n), t.right, p)
    requires n == Top(t.left) || n == Top(t.right) ==> p == t.elem
    ensures Linked(Reweighed(m, n), t, p)
  {
    hide Nodes, Distinct;
    var m' := Reweighed(m, n);
    Parts(t);
    TopIsNode(t.left);
    TopIsNode(t.right);
    if n in Nodes(t.left) {
      StaleElsewhere(m, t.right, n, p);
      Frame(m, m', t.right, p);
    } else {
      StaleElsewhere(m, t.left, n, p);
      Frame(m, m', t.left, p);
    }
  }

  /** Recomputing the weight of the one stale node leaves at most its parent stale. */
  lemma {:induction false} StaleMovesUp(m: Store, t: Shape, n: Node)
    requires n in Nodes(t) && Distinct(t) && Linked(m, t, n) && n in m
    ensures n == Top(t) ==> Linked(Reweighed(m, n), t, null)
    ensures n != Top(t) ==> m[n].parent != null && Linked(Reweighed(m, n), t, m[n].parent)
  {
    hide Nodes, Distinct, Reweighed;
    TopIsNode(t);
    Parts(t);
    TopIsNode(t.left);
    TopIsNode(t.right);
    if n == t.elem {
      StaleRoot(m, t);
    } else {
      var p := m[n].parent;
      var u := if n in Nodes(t.left) then t.left else t.right;
      StaleMovesUp(m, u, n);
      if n == u.elem { StaleElsewhere(Reweighed(m, n), u, null, p); }
      StaleBelow(m, t, n, p);
    }
  }

  // ---- The tree ---------------------------------------------------------------------------------

  /** The live nodes among `s`, in order. */
  ghost function LiveOf(m: Store, s: seq<Node>): (r: seq<Node>) {
    if s == [] then []
    else (if s[0] in m && m[s[0]].own > 0 then [s[0]] else []) + LiveOf(m, s[1..])
  }

  lemma {:induction false} LiveConcat(m: Store, a: seq<Node>, b: seq<Node>)
    ensures LiveOf(m, a + b) == LiveOf(m, a) + LiveOf(m, b)
  {
    if a == [] {
      assert a + b == b;
    } else {
      LiveConcat(m, a[1..], b);
      assert (a + b)[1..] == a[1..] + b;
    }
  }

  lemma LiveParts(m: Store, t: Shape)
    requires t.Branch?
    ensures LiveOf(m, InOrder(t)) ==
            LiveOf(m, InOrder(t.left)) + LiveOf(m, [t.elem]) + LiveOf(m, InOrder(t.right))
  {
    LiveConcat(m, InOrder(t.left), [t.elem]);
    LiveConcat(m, InOrder(t.left) + [t.elem], InOrder(t.right));
  }

  /** The weight cached at the root is the number of live nodes. */
  lemma {:induction false} WeightIsLive(S: set<Node>, t: Shape)
    requires Nodes(t) <= S && Linked(Snap(S), t, null)
    ensures WeightAt(Snap(S), Top(t)) == |LiveOf(Snap(S), InOrder(t))|
  {
    hide Nodes;
    if t.Branch? {
      Parts(t);
      WeightIsLive(S, t.left);
      WeightIsLive(S, t.right);
      LiveParts(Snap(S), t);
    }
  }

  /** Everything a legal tree is, of the nodes in `S`; they may be more than those of `t`. */
  ghost predicate Legal(S: set<Node>, t: Shape)
    reads S
  {
    && Nodes(t) <= S && Distinct(t) && Linked(Snap(S), t, null) && Llrb(t) && !IsRed(t)
    && (t.Branch? ==> t.elem in S && t.elem.parent == null)
  }

  lemma LegalWithin(S: set<Node>, S': set<Node>, t: Shape)
    requires Legal(S, t) && Nodes(t) <= S'
    ensures Legal(S', t)
  {
    TopIsNode(t);
    hide Nodes, Distinct;
    Frame(Snap(S), Snap(S'), t, null);
  }

  lemma SingleLinks(m: Store, n: Node)
    requires n in m && m[n] == Cell(null, null, null, true, 1, m[n].own, m[n].own)
    ensures Linked(m, Single(n), null)
  {
    assert Size(Branch(Leaf, n, true, Leaf)) == 1;
  }

  /** Makes a node the lone, red node it is before it is inserted. */
  method Reset(target: Node)
    modifies target
    ensures CellOf(target) == Cell(null, null, null, true, 1, target.OwnWeight(), old(target.OwnWeight()))
  {
    target.left := null;
    target.right := null;
    target.parent := null;
    target.isRed := true;
    target.weight := target.OwnWeight();
    target.count := 1;
  }

  method Prepare(target: Node, ghost S: set<Node>, ghost t: Shape)
    requires Legal(S, t) && target in S && target !in Nodes(t)
    modifies target
    ensures Legal(S, t) && Linked(Snap(S), Single(target), null) && Kept(old(Snap(S)), Snap(S), {target})
  {
    TopIsNode(t);
    hide Nodes, Distinct;
    ghost var m := Snap(S);
    Reset(target);
    ghost var m' := Snap(S);
    assert m'[target] == CellOf(target);
    assert Kept(m, m', {target});
    SingleLinks(m', target);
    Frame(m, m', t, null);
  }

  /** Blackens the root and cuts it off from whatever it was below. */
  method Finish(root: Node?, ghost S: set<Node>, ghost u: Shape)
    requires root == Top(u) && Nodes(u) <= S && Distinct(u) && Linked(Snap(S), u, null) && Llrb(Recolor(u, false))
    modifies root
    ensures Legal(S, Recolor(u, false)) && Kept(old(Snap(S)), Snap(S), Nodes(u))
  {
    TopIsNode(u);
    assert InOrder(Recolor(u, false)) == InOrder(u);
    if root != null {
      ghost var m := Snap(S);
      root.isRed := false;
      root.parent := null;
      hide InOrder;
      assert Snap(S)[root] == CellOf(root);
      RecolorLinks(m, Snap(S), u, false);
    }
  }

  lemma RecolorSequence(t: Shape, red: bool)
    ensures InOrder(Recolor(t, red)) == InOrder(t) && Nodes(Recolor(t, red)) == Nodes(t)
    ensures Distinct(Recolor(t, red)) == Distinct(t)
  {
  }

  /** `r` is `s` with `x` right after `prev`, wherever that is. */
  ghost predicate InsertedAfter(s: seq<Node>, prev: Node, x: Node, r: seq<Node>) {
    forall i :: 0 <= i < |s| && s[i] == prev ==> r == s[..i + 1] + [x] + s[i + 1..]
  }

  /** `r` is `s` without `node`, wherever that is. */
  ghost predicate CutOut(s: seq<Node>, node: Node, r: seq<Node>) {
    forall i :: 0 <= i < |s| && s[i] == node ==> r == s[..i] + s[i + 1..]
  }

  /** All that is known of the shape an insertion after position `i` leaves once its root is black. */
  lemma InsertOutcome(t: Shape, i: nat, x: Node)
    requires Distinct(t) && Llrb(t) && i < |InOrder(t)| && x !in Nodes(t)
    ensures i + 1 <= Size(t)
    ensures var v := Insert(t, i + 1, x);
            && Distinct(v) && Nodes(v) == Nodes(t) + {x} && v.elem in Nodes(v)
            && Llrb(Recolor(v, false)) && Top(Recolor(v, false)) == Top(v)
            && Nodes(Recolor(v, false)) == Nodes(v)
            && InsertedAfter(InOrder(t), InOrder(t)[i], x, InOrder(Recolor(v, false)))
  {
    SizeIsLength(t);
    InsertNodes(t, i + 1, x);
    InsertSequence(t, i + 1, x);
    InsertKeepsInvariants(t, i + 1, x);
    RecolorSequence(Insert(t, i + 1, x), false);
    TopIsNode(Insert(t, i + 1, x));
    hide Insert, InOrder, Nodes, Llrb;
  }

  /** The insertion proper; `u` is the shape it leaves. */
  method InsertInto(root: Node, prev: Node, target: Node, ghost S: set<Node>, ghost t: Shape)
    returns (r: Node, ghost u: Shape)
    requires Legal(S, t) && root == Top(t) && prev in Nodes(t) && target in S && target !in Nodes(t)
    modifies S
    ensures Legal(S, u) && r == Top(u) && Nodes(u) == Nodes(t) + {target}
    ensures InsertedAfter(InOrder(t), prev, target, InOrder(u))
    ensures Kept(old(Snap(S)), Snap(S), S)
  {
    hide Nodes, Distinct, Linked, Snap, Kept, InsertedAfter, InOrder, Llrb;
    Prepare(target, S, t);
    ghost var m1 := Snap(S);
    var idx := StructuralIndexOf(prev, S, t);
    InsertOutcome(t, idx, target);
    r := InsertByCount(root, idx + 1, target, S, t);
    ghost var v := Insert(t, idx + 1, target);
    ghost var m2 := Snap(S);
    u := Recolor(v, false);
    hide Insert, Recolor, Legal;
    Finish(r, S, v);
    KeptMore(old(Snap(S)), m1, m2, {target}, Nodes(t) + {target}, S);
    KeptMore(old(Snap(S)), m2, Snap(S), S, Nodes(v), S);
  }

  ghost function TombstonesOf(S: set<Node>): (s: set<Node>)
    reads S
  {
    set n | n in S && n.removed
  }

  ghost function DeadIn(m: Store): (s: set<Node>) {
    set n | n in m && m[n].own == 0
  }

  lemma TombstonesOfSnap(S: set<Node>)
    ensures TombstonesOf(S) == DeadIn(Snap(S))
  {
    forall n | n in S ensures n.removed == (Snap(S)[n].own == 0) {
      assert Snap(S)[n] == CellOf(n);
    }
  }

  lemma KeptTombstones(m: Store, m': Store, S: set<Node>)
    requires Kept(m, m', S)
    ensures DeadIn(m) == DeadIn(m')
  {
  }

  lemma OpenSequence(t: Shape)
    requires t.Branch?
    ensures InOrder(Open(t)) == InOrder(t) && Nodes(Open(t)) == Nodes(t) && Distinct(Open(t)) == Distinct(t)
    ensures Open(t).elem == t.elem
  {
  }

  /** Reddens the root when neither of its children is red. */
  method OpenRoot(root: Node, ghost S: set<Node>, ghost t: Shape)
    requires Legal(S, t) && root == Top(t)
    modifies S
    ensures Linked(Snap(S), Open(t), null) && root.parent == null
    ensures Kept(old(Snap(S)), Snap(S), Nodes(t))
  {
    TopIsNode(t);
    LinkedIsWired(Snap(S), t);
    Colours(S, t);
    hide Nodes, Distinct;
    ghost var m := Snap(S);
    if !IsRedNode(root.left) && !IsRedNode(root.right) {
      root.isRed := true;
      assert Snap(S)[root] == CellOf(root);
      RecolorLinks(m, Snap(S), t, true);
    }
  }

  lemma DeleteOutcome(t: Shape, i: nat)
    requires t.Branch? && Distinct(t) && Llrb(t) && !t.red && i < |InOrder(t)|
    ensures ReadyAt(Open(t), i)
    ensures var v := Delete(Open(t), i);
            && Distinct(v) && Nodes(v) == Nodes(t) - {InOrder(t)[i]} && (v.Branch? ==> v.elem in Nodes(v))
            && Llrb(Recolor(v, false)) && Top(Recolor(v, false)) == Top(v)
            && Nodes(Recolor(v, false)) == Nodes(v)
            && CutOut(InOrder(t), InOrder(t)[i], InOrder(Recolor(v, false)))
  {
    SizeIsLength(t);
    OpenSequence(t);
    DeleteKeepsInvariants(t, i);
    DeleteNodes(Open(t), i);
    DeleteSequence(Open(t), i);
    RecolorSequence(Delete(Open(t), i), false);
    TopIsNode(Delete(Open(t), i));
    hide Delete, InOrder, Nodes, Llrb;
  }

  /** The deletion proper; `u` is the shape it leaves. */
  method DeleteOut(root: Node, node: Node, ghost S: set<Node>, ghost t: Shape)
    returns (r: Node?, ghost u: Shape)
    requires Legal(S, t) && root == Top(t) && node in Nodes(t)
    modifies S
    ensures Legal(S, u) && r == Top(u) && Nodes(u) == Nodes(t) - {node}
    ensures CutOut(InOrder(t), node, InOrder(u))
    ensures Kept(old(Snap(S)), Snap(S), S)
  {
    hide Nodes, Distinct, Linked, Snap, Kept, CutOut, InOrder, Llrb;
    ghost var o := Open(t);
    OpenSequence(t);
    OpenRoot(root, S, t);
    ghost var m1 := Snap(S);
    var idx := StructuralIndexOf(node, S, o);
    DeleteOutcome(t, idx);
    r := DeleteByCount(root, idx, S, o);
    ghost var v := Delete(o, idx);
    ghost var m2 := Snap(S);
    u := Recolor(v, false);
    hide Delete, Recolor, Open, ReadyAt, Legal;
    Finish(r, S, v);
    KeptMore(old(Snap(S)), m1, m2, Nodes(t), Nodes(t), S);
    KeptMore(old(Snap(S)), m2, Snap(S), S, Nodes(v), S);
  }

  /** Recomputes the weights from `node` up to the root. */
  method Reweigh(node: Node, ghost S: set<Node>, ghost t: Shape)
    requires node in Nodes(t) && Nodes(t) <= S && Distinct(t) && Linked(Snap(S), t, node) && t.elem.parent == null
    modifies S
    ensures Linked(Snap(S), t, null) && Kept(old(Snap(S)), Snap(S), Nodes(t)) && t.elem.parent == null
  {
    KeptTrivially(Snap(S), Nodes(t));
    TopIsNode(t);
    var cur: Node? := node;
    hide Nodes, Distinct, Linked, Snap, Kept, CellOf;
    while cur != null
      invariant t.elem.parent == null
      invariant cur != null ==> cur in Nodes(t)
      invariant Linked(Snap(S), t, cur)
      invariant Kept(old(Snap(S)), Snap(S), Nodes(t))
      decreases if cur == null then 0 else 1 + Size(t) - Size(SubAt(t, cur))
    {
      ghost var m := Snap(S);
      ReweighStep(cur, S, t);
      KeptTrans(old(Snap(S)), m, Snap(S), Nodes(t), Nodes(t));
      cur := cur.parent;
    }
  }

  method SetWeight(cur: Node, ghost S: set<Node>)
    requires cur in S && cur.left != cur && cur.right != cur
    requires (cur.left != null ==> cur.left in S) && (cur.right != null ==> cur.right in S)
    modifies cur`weight
    ensures Snap(S) == Reweighed(old(Snap(S)), cur)
  {
    ghost var m := Snap(S);
    cur.weight := cur.LeftWeight() + cur.OwnWeight() + cur.RightWeight();
    assert Snap(S)[cur] == CellOf(cur);
  }

  method ReweighStep(cur: Node, ghost S: set<Node>, ghost t: Shape)
    requires cur in Nodes(t) && Nodes(t) <= S && Distinct(t) && Linked(Snap(S), t, cur) && t.elem.parent == null
    modifies cur`weight
    ensures Kept(old(Snap(S)), Snap(S), Nodes(t))
    ensures Linked(Snap(S), t, cur.parent) && (cur.parent == null) == (cur == t.elem)
    ensures cur.parent != null ==> cur.parent in Nodes(t) && Size(SubAt(t, cur)) < Size(SubAt(t, cur.parent))
  {
    ghost var m := Snap(S);
    assert m[cur] == CellOf(cur);
    LocalSite(S, t, cur);
    if cur != t.elem {
      ParentIsAbove(m, t, cur, cur);
    }
    StaleMovesUp(m, t, cur);
    hide Nodes, Distinct, Linked, Snap;
    SetWeight(cur, S);
  }

  lemma LocalSite(S: set<Node>, t: Shape, n: Node)
    requires n in Nodes(t) && Nodes(t) <= S && Distinct(t) && Linked(Snap(S), t, n)
    ensures n.left != n && n.right != n
    ensures n.left != null ==> n.left in S
    ensures n.right != null ==> n.right in S
  {
    var u := SubAt(t, n);
    SubLinked(Snap(S), t, n, n);
    SubNodes(t, n);
    SubDistinct(t, n);
    Parts(u);
    TopIsNode(u.left);
    TopIsNode(u.right);
    assert Snap(S)[n] == CellOf(n);
  }

  lemma {:induction false} SubDistinct(t: Shape, n: Node)
    requires n in Nodes(t) && Distinct(t)
    ensures Distinct(SubAt(t, n))
  {
    hide Nodes, Distinct;
    TopIsNode(t);
    Parts(t);
    if t.elem != n {
      if n in Nodes(t.left) {
        SubDistinct(t.left, n);
      } else {
        SubDistinct(t.right, n);
      }
    }
  }

  lemma {:induction false} FlipIsStale(m: Store, m': Store, t: Shape, node: Node)
    requires Distinct(t) && Linked(m, t, node) && node in m && m'.Keys == m.Keys
    requires m'[node] == m[node].(own := m'[node].own)
    requires forall n :: n in m && n != node ==> m'[n] == m[n]
    ensures Linked(m', t, node)
  {
    hide Nodes, Distinct;
    if t.Branch? {
      var l, r := Top(t.left), Top(t.right);
      Parts(t);
      FlipIsStale(m, m', t.left, node);
      FlipIsStale(m, m', t.right, node);
      assert WeightAt(m', l) == WeightAt(m, l) && WeightAt(m', r) == WeightAt(m, r);
      assert ChildOf(m', t.left, t.elem) && ChildOf(m', t.right, t.elem);
    }
  }

  lemma LiveSingle(S: set<Node>, n: Node)
    requires n in S
    ensures LiveOf(Snap(S), [n]) == if n.removed then [] else [n]
  {
    assert Snap(S)[n] == CellOf(n);
    assert [n][1..] == [];
  }

  /** How the live nodes below `u` split, in terms of what the pointers show. */
  lemma DescentStep(S: set<Node>, u: Shape)
    requires u.Branch? && Nodes(u) <= S && Linked(Snap(S), u, null)
    ensures u.elem.left == Top(u.left) && u.elem.right == Top(u.right)
    ensures Nodes(u.left) <= S && Nodes(u.right) <= S
    ensures Linked(Snap(S), u.left, null) && Linked(Snap(S), u.right, null)
    ensures u.elem.LeftWeight() == |LiveOf(Snap(S), InOrder(u.left))|
    ensures LiveOf(Snap(S), InOrder(u)) ==
            LiveOf(Snap(S), InOrder(u.left)) + (if u.elem.removed then [] else [u.elem])
                + LiveOf(Snap(S), InOrder(u.right))
    ensures u.left.Leaf? ==> LiveOf(Snap(S), InOrder(u.left)) == []
    ensures u.right.Leaf? ==> LiveOf(Snap(S), InOrder(u.right)) == []
  {
    Parts(u);
    TopIsNode(u.left);
    CountIsSize(S, u);
    LiveParts(Snap(S), u);
    LiveSingle(S, u.elem);
    WeightIsLive(S, u.left);
    hide Nodes, Linked;
    if u.left.Branch? {
      assert Snap(S)[u.left.elem] == CellOf(u.left.elem);
    }
  }

  method Descend(root: Node, index: nat, ghost S: set<Node>, ghost t: Shape) returns (node: Node, ghost steps: nat)
    requires root == Top(t) && Nodes(t) <= S && Linked(Snap(S), t, null) && index < |LiveOf(Snap(S), InOrder(t))|
    ensures index < |LiveOf(Snap(S), InOrder(t))| && node == LiveOf(Snap(S), InOrder(t))[index]
    ensures steps < Height(t)
  {
    hide Nodes, Linked, Snap, LiveOf, InOrder;
    ghost var m, u := Snap(S), t;
    ghost var goal := LiveOf(m, InOrder(t))[index];
    var i := index;
    node, steps := root, 0;
    while true
      invariant u.Branch? && u.elem == node && Nodes(u) <= S && Linked(m, u, null)
      invariant i < |LiveOf(m, InOrder(u))| && LiveOf(m, InOrder(u))[i] == goal
      invariant steps + Height(u) <= Height(t)
      decreases u
    {
      DescentStep(S, u);
      ghost var a, b := LiveOf(m, InOrder(u.left)), LiveOf(m, InOrder(u.right));
      if i < node.LeftWeight() {
        assert goal == a[i];
        node := node.left;
        u := u.left;
      } else if i < node.LeftWeight() + node.OwnWeight() {
        break;
      } else {
        i := i - (node.LeftWeight() + node.OwnWeight());
        assert goal == b[i];
        node := node.right;
        u := u.right;
      }
      steps := steps + 1;
    }
  }

  lemma DepthBound(t: Shape)
    requires Llrb(t) && !IsRed(t)
    ensures Height(t) <= 2 * Log2(|InOrder(t)| + 1)
  {
    HeightIsLogarithmic(t);
    SizeIsLength(t);
    hide *;
    assert Size(t) + 1 == |InOrder(t)| + 1;
  }

  datatype Found = At(node: Node) | OutOfIndex

  method FindIn(root: Node?, index: int, ghost S: set<Node>, ghost t: Shape) returns (r: Found, ghost steps: nat)
    requires root == Top(t) && Nodes(t) <= S && Linked(Snap(S), t, null)
    ensures var live := LiveOf(Snap(S), InOrder(t));
            r == if 0 <= index < |live| then At(live[index]) else OutOfIndex
    ensures steps <= Height(t)
  {
    WeightIsLive(S, t);
    TopIsNode(t);
    hide Nodes, Linked, InOrder, LiveOf, Height;
    steps := 0;
    if root == null {
      return OutOfIndex, 0;
    }
    assert Snap(S)[root] == CellOf(root);
    if index < 0 || index >= root.weight {
      return OutOfIndex, 0;
    }
    hide Snap;
    var node: Node;
    node, steps := Descend(root, index, S, t);
    r := At(node);
  }

  class Tree {
    var root: Node?
    ghost var shape: Shape

    ghost predicate Valid()
      reads this, Nodes(shape)
    {
      root == Top(shape) && Legal(Nodes(shape), shape)
    }

    /** The nodes in list order, tombstones included. */
    ghost function Sequence(): (s: seq<Node>)
      reads this
    {
      InOrder(shape)
    }

    ghost function Tombstones(): (s: set<Node>)
      reads this, Nodes(shape)
    {
      TombstonesOf(Nodes(shape))
    }

    /** The nodes in list order that are not tombstones. */
    ghost function LiveNodes(): (s: seq<Node>)
      reads this, Nodes(shape)
    {
      LiveOf(Snap(Nodes(shape)), InOrder(shape))
    }

    constructor (root: Node?)
      requires root != null ==> root.left == root.right == root.parent == null && root.count == 1
      requires root != null ==> root.weight == root.OwnWeight()
      modifies root
      ensures Valid() && Sequence() == if root == null then [] else [root]
      ensures root != null ==> root.removed == old(root.removed)
    {
      this.root := root;
      shape := if root == null then Leaf else Branch(Leaf, root, false, Leaf);
      new;
      if root != null {
        root.isRed := false;
        assert InOrder(shape) == [root];
        assert Snap(Nodes(shape))[root] == CellOf(root);
      }
    }

    function Len(): (n: int)
      reads this, root
    {
      if root == null then 0 else root.weight
    }

    lemma LenIsLive()
      requires Valid()
      ensures Len() == |LiveNodes()|
    {
      WeightIsLive(Nodes(shape), shape);
      if root != null {
        assert Snap(Nodes(shape))[root] == CellOf(root);
      }
    }

    /** Puts `target` right after `prev` in list order; tombstones count as positions. */
    method InsertAfter(prev: Node?, target: Node?)
      requires Valid()
      requires prev != null && target != null ==> prev in Nodes(shape) && target !in Nodes(shape)
      modifies this, Nodes(shape), target
      ensures Valid()
      ensures prev == null || target == null ==> Sequence() == old(Sequence()) && Tombstones() == old(Tombstones())
      ensures prev != null && target != null ==>
                && (forall i :: 0 <= i < |old(Sequence())| && old(Sequence())[i] == prev ==>
                      Sequence() == old(Sequence())[..i + 1] + [target] + old(Sequence())[i + 1..])
                && Tombstones() == old(Tombstones()) + if old(target.removed) then {target} else {}
    {
      if prev == null || target == null {
        return;
      }
      ghost var t := shape;
      ghost var S := Nodes(t) + {target};
      LegalWithin(Nodes(t), S, t);
      TombstonesOfSnap(S);
      assert TombstonesOf(S) == old(Tombstones()) + if old(target.removed) then {target} else {};
      ghost var m := Snap(S);
      hide Nodes, Distinct, Legal, Kept, InOrder, Snap, DeadIn, TombstonesOf;
      var r: Node, u := InsertInto(root, prev, target, S, t);
      KeptTombstones(m, Snap(S), S);
      TombstonesOfSnap(S);
      Install(r, S, u);
    }

    /** Removes exactly `node`; every other node stays where it is and the object it is. */
    method Delete(node: Node?)
      requires Valid()
      requires node != null && root != null ==> node in Nodes(shape)
      modifies this, Nodes(shape)
      ensures Valid()
      ensures node == null || old(root) == null ==> Sequence() == old(Sequence()) && Tombstones() == old(Tombstones())
      ensures node != null && old(root) != null ==>
                && (forall i :: 0 <= i < |old(Sequence())| && old(Sequence())[i] == node ==>
                      Sequence() == old(Sequence())[..i] + old(Sequence())[i + 1..])
                && Tombstones() == old(Tombstones()) - {node}
    {
      if node == null || root == null {
        return;
      }
      ghost var t := shape;
      ghost var S := Nodes(t);
      ghost var m := Snap(S);
      TombstonesOfSnap(S);
      hide Nodes, Distinct, Legal, Kept, InOrder, Snap, DeadIn;
      var r: Node?, u := DeleteOut(root, node, S, t);
      KeptTombstones(m, Snap(S), S);
      TombstonesOfSnap(S);
      assert TombstonesOf(Nodes(u)) == TombstonesOf(S) - {node};
      LegalWithin(S, Nodes(u), u);
      hide TombstonesOf;
      Install(r, Nodes(u), u);
    }

    /** A value changes its liveness and the weights above it are brought up to date. */
    method SetRemoved(node: Node, removed: bool)
      requires Valid() && node in Nodes(shape)
      modifies Nodes(shape)
      ensures Valid() && Sequence() == old(Sequence())
      ensures Tombstones() == if removed then old(Tombstones()) + {node} else old(Tombstones()) - {node}
    {
      ghost var t, S := shape, Nodes(shape);
      ghost var m := Snap(S);
      StaleElsewhere(m, t, null, node);
      node.removed := removed;
      FlipIsStale(m, Snap(S), t, node);
      assert TombstonesOf(S) == if removed then old(Tombstones()) + {node} else old(Tombstones()) - {node};
      UpdateWeight(node);
    }

    /** Legal but for the weight of `node` and of the nodes above it. */
    ghost predicate ValidBut(node: Node)
      reads this, Nodes(shape)
    {
      && root == Top(shape) && node in Nodes(shape) && Distinct(shape)
      && Linked(Snap(Nodes(shape)), shape, node)
      && Llrb(shape) && !IsRed(shape)
      && root != null && root in Nodes(shape) && root.parent == null
    }

    method UpdateWeight(node: Node)
      requires ValidBut(node)
      modifies Nodes(shape)
      ensures Valid() && Sequence() == old(Sequence()) && Tombstones() == old(Tombstones())
    {
      ghost var t, S := shape, Nodes(shape);
      ghost var m := Snap(S);
      TombstonesOfSnap(S);
      hide Nodes, Distinct, Linked, Kept, InOrder, Snap, DeadIn, TombstonesOf;
      Reweigh(node, S, t);
      KeptTombstones(m, Snap(S), S);
      TombstonesOfSnap(S);
    }

    /**
     The node at a position among the live ones, found in a number of steps logarithmic
     in the number of all nodes.
     */
    method Find(index: int) returns (r: Found, ghost steps: nat)
      requires Valid()
      ensures 0 <= index < |LiveNodes()| ==> r == At(LiveNodes()[index])
      ensures !(0 <= index < |LiveNodes()|) ==> r == OutOfIndex
      ensures steps <= 2 * Log2(|Sequence()| + 1)
    {
      DepthBound(shape);
      hide Nodes, Linked, InOrder, LiveOf, Llrb, Distinct, Snap, Log2, Height;
      r, steps := FindIn(root, index, Nodes(shape), shape);
    }

    method Install(r: Node?, ghost S: set<Node>, ghost u: Shape)
      requires Legal(S, u) && r == Top(u)
      modifies this
      ensures root == r && shape == u && Legal(S, u) && TombstonesOf(S) == old(TombstonesOf(S))
    {
      hide *;
      root := r;
      shape := u;
    }
  }
}
