/**
 The ordered map: a left-leaning red-black tree of linked nodes with keys and values.

 As in `TreeList`, an operation takes as a ghost the shape of the subtree it works on. Here
 an element of the shape is a node together with the key and value it holds, because a
 removal copies a key and a value from one node to another. Keys are integers: the tree only
 compares them, so they stand for any linear order.
 */
module LlrbMap {
  import opened RB = RedBlack

  class Node {
    var key: int
    var value: int
    var left: Node?
    var right: Node?
    var isRed: bool

    constructor (key: int, value: int, isRed: bool)
      ensures this.key == key && this.value == value && this.isRed == isRed && left == right == null
    {
      this.key := key;
      this.value := value;
      this.isRed := isRed;
      left, right := null, null;
    }
  }

  // ---- Stores and shapes -----------------------------------------------------------------

  datatype Cell = Cell(key: int, value: int, left: Node?, right: Node?, red: bool)

  type Store = map<Node, Cell>

  ghost function CellOf(n: Node): (c: Cell)
    reads n
  {
    Cell(n.key, n.value, n.left, n.right, n.isRed)
  }

  ghost function Snap(S: set<Node>): (m: Store)
    reads S
  {
    map n | n in S :: CellOf(n)
  }

  datatype Item = Item(node: Node, key: int, value: int)

  type Shape = RB.Tree<Item>

  ghost function Top(t: Shape): (n: Node?) {
    if t.Leaf? then null else t.elem.node
  }

  ghost function Nodes(t: Shape): (s: set<Node>) {
    if t.Leaf? then {} else Nodes(t.left) + {t.elem.node} + Nodes(t.right)
  }

  ghost predicate Distinct(t: Shape) {
    t.Branch? ==>
      && t.elem.node !in Nodes(t.left) && t.elem.node !in Nodes(t.right) && Nodes(t.left) !! Nodes(t.right)
      && Distinct(t.left) && Distinct(t.right)
  }

  ghost predicate Holds(m: Store, t: Shape)
    requires t.Branch?
  {
    && t.elem.node in m
    && m[t.elem.node] == Cell(t.elem.key, t.elem.value, Top(t.left), Top(t.right), t.red)
  }

  /** The nodes of `t` hold and link what `t` says. */
  ghost predicate Linked(m: Store, t: Shape) {
    t.Branch? ==> Holds(m, t) && Linked(m, t.left) && Linked(m, t.right)
  }

  /** Distinct nodes, linked as `t` says, all in `S`. */
  ghost predicate Stands(m: Store, t: Shape) {
    Distinct(t) && Linked(m, t) && Nodes(t) <= m.Keys
  }

  /** Of the nodes of `m` only those in `S` changed. */
  ghost predicate Kept(m: Store, m': Store, S: set<Node>) {
    m.Keys <= m'.Keys && forall n :: n in m && n !in S ==> m'[n] == m[n]
  }

  lemma {:induction false} Frame(m: Store, m': Store, t: Shape)
    requires Linked(m, t) && forall n :: n in Nodes(t) && n in m ==> n in m' && m'[n] == m[n]
    ensures Linked(m', t)
  {
    if t.Branch? {
      Frame(m, m', t.left);
      Frame(m, m', t.right);
    }
  }

  lemma Untouched(m: Store, m': Store, t: Shape, S: set<Node>)
    requires Stands(m, t) && Kept(m, m', S) && Nodes(t) !! S
    ensures Stands(m', t)
  {
    Frame(m, m', t);
  }

  /** What `t` says of its root and its two subtrees. */
  lemma Parts(m: Store, t: Shape)
    requires Stands(m, t) && t.Branch?
    ensures Holds(m, t) && Stands(m, t.left) && Stands(m, t.right)
    ensures Nodes(t) == Nodes(t.left) + {t.elem.node} + Nodes(t.right)
    ensures t.elem.node !in Nodes(t.left) && t.elem.node !in Nodes(t.right) && Nodes(t.left) !! Nodes(t.right)
    ensures (t.left.Branch? ==> t.left.elem.node in Nodes(t.left))
            && (t.right.Branch? ==> t.right.elem.node in Nodes(t.right))
  {
  }

  lemma Whole(m: Store, t: Shape)
    requires t.Branch? && Holds(m, t) && Stands(m, t.left) && Stands(m, t.right)
    requires t.elem.node !in Nodes(t.left) && t.elem.node !in Nodes(t.right) && Nodes(t.left) !! Nodes(t.right)
    ensures Stands(m, t) && Nodes(t) == Nodes(t.left) + {t.elem.node} + Nodes(t.right)
  {
  }

  // ---- Rotations -------------------------------------------------------------------------

  ghost function TurnedLeft(m: Store, node: Node, r: Node): (m': Store)
    requires node in m && r in m
  {
    m[node := m[node].(right := m[r].left, red := true)][r := m[r].(left := node, red := m[node].red)]
  }

  ghost function TurnedRight(m: Store, node: Node, l: Node): (m': Store)
    requires node in m && l in m
  {
    m[node := m[node].(left := m[l].right, red := true)][l := m[l].(right := node, red := m[node].red)]
  }

  lemma RotateLeftStands(m: Store, t: Shape)
    requires Stands(m, t) && t.Branch? && t.right.Branch?
    ensures t.elem.node in m && t.right.elem.node in m && m[t.elem.node].right == t.right.elem.node
    ensures t.elem.node != t.right.elem.node && Nodes(RB.RotateLeft(t)) == Nodes(t)
    ensures var m' := TurnedLeft(m, t.elem.node, t.right.elem.node);
            Stands(m', RB.RotateLeft(t)) && Kept(m, m', Nodes(t))
  {
    hide Stands, Nodes;
    Parts(m, t);
    Parts(m, t.right);
    var node, r := t.elem.node, t.right.elem.node;
    var m' := TurnedLeft(m, node, r);
    var u := RB.RotateLeft(t);
    Untouched(m, m', t.left, {node, r});
    Untouched(m, m', t.right.left, {node, r});
    Untouched(m, m', t.right.right, {node, r});
    Whole(m', u.left);
    Whole(m', u);
  }

  lemma RotateRightStands(m: Store, t: Shape)
    requires Stands(m, t) && t.Branch? && t.left.Branch?
    ensures t.elem.node in m && t.left.elem.node in m && m[t.elem.node].left == t.left.elem.node
    ensures t.elem.node != t.left.elem.node && Nodes(RB.RotateRight(t)) == Nodes(t)
    ensures var m' := TurnedRight(m, t.elem.node, t.left.elem.node);
            Stands(m', RB.RotateRight(t)) && Kept(m, m', Nodes(t))
  {
    hide Stands, Nodes;
    Parts(m, t);
    Parts(m, t.left);
    var node, l := t.elem.node, t.left.elem.node;
    var m' := TurnedRight(m, node, l);
    var u := RB.RotateRight(t);
    Untouched(m, m', t.right, {node, l});
    Untouched(m, m', t.left.left, {node, l});
    Untouched(m, m', t.left.right, {node, l});
    Whole(m', u.right);
    Whole(m', u);
  }

  method TurnLeft(node: Node, ghost S: set<Node>) returns (r: Node)
    requires node in S && node.right != null && node.right in S && node.right != node
    modifies S
    ensures r == old(node.right) && Snap(S) == TurnedLeft(old(Snap(S)), node, r)
  {
    r := node.right;
    node.right := r.left;
    r.left := node;
    r.isRed := r.left.isRed;
    r.left.isRed := true;
  }

  method TurnRight(node: Node, ghost S: set<Node>) returns (l: Node)
    requires node in S && node.left != null && node.left in S && node.left != node
    modifies S
    ensures l == old(node.left) && Snap(S) == TurnedRight(old(Snap(S)), node, l)
  {
    l := node.left;
    node.left := l.right;
    l.right := node;
    l.isRed := l.right.isRed;
    l.right.isRed := true;
  }

  method RotateLeft(node: Node, ghost S: set<Node>, ghost t: Shape) returns (r: Node)
    requires Stands(Snap(S), t) && t.Branch? && t.right.Branch? && t.elem.node == node
    modifies S
    ensures r == RB.RotateLeft(t).elem.node && Stands(Snap(S), RB.RotateLeft(t))
    ensures Nodes(RB.RotateLeft(t)) == Nodes(t) && Kept(old(Snap(S)), Snap(S), Nodes(t))
  {
    hide Stands, Nodes, Kept;
    RotateLeftStands(Snap(S), t);
    r := TurnLeft(node, S);
  }

  method RotateRight(node: Node, ghost S: set<Node>, ghost t: Shape) returns (l: Node)
    requires Stands(Snap(S), t) && t.Branch? && t.left.Branch? && t.elem.node == node
    modifies S
    ensures l == RB.RotateRight(t).elem.node && Stands(Snap(S), RB.RotateRight(t))
    ensures Nodes(RB.RotateRight(t)) == Nodes(t) && Kept(old(Snap(S)), Snap(S), Nodes(t))
  {
    hide Stands, Nodes, Kept;
    RotateRightStands(Snap(S), t);
    l := TurnRight(node, S);
  }

  ghost function Repainted(m: Store, n: Node): (m': Store)
    requires n in m
  {
    m[n := m[n].(red := !m[n].red)]
  }

  method Repaint(node: Node, ghost S: set<Node>)
    requires node in S
    modifies S
    ensures Snap(S) == Repainted(old(Snap(S)), node)
  {
    node.isRed := !node.isRed;
  }

  lemma RepaintStands(m: Store, t: Shape)
    requires Stands(m, t) && t.Branch?
    ensures t.elem.node in m && Stands(Repainted(m, t.elem.node), t.(red := !t.red))
    ensures Nodes(t.(red := !t.red)) == Nodes(t) && Kept(m, Repainted(m, t.elem.node), {t.elem.node})
  {
    hide Stands;
    Parts(m, t);
    var m' := Repainted(m, t.elem.node);
    Untouched(m, m', t.left, {t.elem.node});
    Untouched(m, m', t.right, {t.elem.node});
    Whole(m', t.(red := !t.red));
  }

  /** The nodes of `t` were rearranged into `u`, with `r` on top. */
  ghost predicate Became(m: Store, m': Store, t: Shape, u: Shape, r: Node?) {
    Stands(m', u) && r == Top(u) && Nodes(u) == Nodes(t) && Kept(m, m', Nodes(t))
  }

  lemma BecameTwice(m: Store, m1: Store, m2: Store, t: Shape, u: Shape, v: Shape, r: Node?, r': Node?)
    requires Became(m, m1, t, u, r) && Became(m1, m2, u, v, r')
    ensures Became(m, m2, t, v, r')
  {
    hide Stands, Nodes;
  }

  lemma BecameItself(m: Store, t: Shape)
    requires Stands(m, t)
    ensures Became(m, m, t, t, Top(t))
  {
  }

  lemma FlipStands(m: Store, t: Shape)
    requires Stands(m, t) && t.Branch? && t.left.Branch? && t.right.Branch?
    ensures t.elem.node in m && t.left.elem.node in m && t.right.elem.node in m
    ensures m[t.elem.node].left == t.left.elem.node && m[t.elem.node].right == t.right.elem.node
    ensures var m' := Repainted(Repainted(Repainted(m, t.elem.node), t.left.elem.node), t.right.elem.node);
            Became(m, m', t, RB.FlipColors(t), t.elem.node)
  {
    hide Stands;
    Parts(m, t);
    var m1 := Repainted(m, t.elem.node);
    var m2 := Repainted(m1, t.left.elem.node);
    var m3 := Repainted(m2, t.right.elem.node);
    Untouched(m, m1, t.left, {t.elem.node});
    Untouched(m, m1, t.right, {t.elem.node});
    RepaintStands(m1, t.left);
    Untouched(m1, m2, t.right, {t.left.elem.node});
    RepaintStands(m2, t.right);
    Untouched(m2, m3, t.left.(red := !t.left.red), {t.right.elem.node});
    Whole(m3, RB.FlipColors(t));
  }

  method FlipColors(node: Node, ghost S: set<Node>, ghost t: Shape)
    requires Stands(Snap(S), t) && t.Branch? && t.left.Branch? && t.right.Branch? && t.elem.node == node
    modifies S
    ensures Became(old(Snap(S)), Snap(S), t, RB.FlipColors(t), node)
  {
    hide Stands, Became;
    FlipStands(Snap(S), t);
    var left, right := node.left, node.right;
    Repaint(node, S);
    Repaint(left, S);
    Repaint(right, S);
  }

  function IsRedNode(n: Node?): (b: bool)
    reads n
  {
    n != null && n.isRed
  }

  /** What the code reads off a node is what its shape says. */
  lemma Seen(S: set<Node>, t: Shape)
    requires Stands(Snap(S), t) && t.Branch?
    ensures t.elem.node in S && CellOf(t.elem.node) == Cell(t.elem.key, t.elem.value, Top(t.left), Top(t.right), t.red)
    ensures Top(t.left) != null ==> Top(t.left) in S
    ensures Top(t.right) != null ==> Top(t.right) in S
    ensures IsRedNode(Top(t.left)) == IsRed(t.left) && IsRedNode(Top(t.right)) == IsRed(t.right)
    ensures IsRedNode(t.elem.node) == IsRed(t)
  {
    var m := Snap(S);
    Parts(m, t);
    assert m[t.elem.node] == CellOf(t.elem.node);
    if t.left.Branch? {
      Parts(m, t.left);
      assert m[t.left.elem.node] == CellOf(t.left.elem.node);
    }
    if t.right.Branch? {
      Parts(m, t.right);
      assert m[t.right.elem.node] == CellOf(t.right.elem.node);
    }
  }

  method LeanLeft(node: Node, ghost S: set<Node>, ghost t: Shape) returns (r: Node)
    requires Stands(Snap(S), t) && t.Branch? && t.elem.node == node
    modifies S
    ensures Became(old(Snap(S)), Snap(S), t, RB.LeanLeft(t), r)
  {
    Seen(S, t);
    BecameItself(Snap(S), t);
    hide Stands, Nodes, Kept;
    r := node;
    if IsRedNode(node.right) && !IsRedNode(node.left) {
      r := RotateLeft(node, S, t);
    }
  }

  method Straighten(node: Node, ghost S: set<Node>, ghost t: Shape) returns (r: Node)
    requires Stands(Snap(S), t) && t.Branch? && t.elem.node == node
    modifies S
    ensures Became(old(Snap(S)), Snap(S), t, RB.Straighten(t), r)
  {
    hide Stands, Nodes, Kept;
    Seen(S, t);
    BecameItself(Snap(S), t);
    if t.left.Branch? { Parts(Snap(S), t); Seen(S, t.left); }
    r := node;
    if IsRedNode(node.left) && IsRedNode(node.left.left) {
      r := RotateRight(node, S, t);
    }
  }

  method Split(node: Node, ghost S: set<Node>, ghost t: Shape)
    requires Stands(Snap(S), t) && t.Branch? && t.elem.node == node
    modifies S
    ensures Became(old(Snap(S)), Snap(S), t, RB.Split(t), node)
  {
    hide Stands, Nodes, Kept;
    Seen(S, t);
    BecameItself(Snap(S), t);
    hide Became;
    if IsRedNode(node.left) && IsRedNode(node.right) {
      FlipColors(node, S, t);
    }
  }

  /** The repair after an insertion. */
  method Rebalance(node: Node, ghost S: set<Node>, ghost t: Shape) returns (r: Node)
    requires Stands(Snap(S), t) && t.Branch? && t.elem.node == node
    modifies S
    ensures Became(old(Snap(S)), Snap(S), t, RB.FixUp(t), r)
  {
    hide Stands, Nodes, Kept;
    ghost var m := Snap(S);
    r := LeanLeft(node, S, t);
    ghost var m1, t1, r1 := Snap(S), RB.LeanLeft(t), r;
    r := Straighten(r, S, t1);
    ghost var m2, t2, r2 := Snap(S), RB.Straighten(t1), r;
    Split(r, S, t2);
    hide Became;
    BecameTwice(m, m1, m2, t, t1, t2, r1, r2);
    BecameTwice(m, m2, Snap(S), t, t2, RB.Split(t2), r2, r);
  }

  /** The repair after a removal. */
  method FixUp(node: Node, ghost S: set<Node>, ghost t: Shape) returns (r: Node)
    requires Stands(Snap(S), t) && t.Branch? && t.elem.node == node
    modifies S
    ensures Became(old(Snap(S)), Snap(S), t, RB.FixUpEager(t), r)
  {
    hide Nodes, Kept;
    ghost var m := Snap(S);
    Seen(S, t);
    BecameItself(m, t);
    hide Stands;
    r := node;
    ghost var t1 := if IsRed(t.right) then RB.RotateLeft(t) else t;
    if IsRedNode(node.right) {
      r := RotateLeft(node, S, t);
    }
    ghost var m1, r1 := Snap(S), r;
    r := Straighten(r, S, t1);
    ghost var m2, t2, r2 := Snap(S), RB.Straighten(t1), r;
    Split(r, S, t2);
    hide Became;
    BecameTwice(m, m1, m2, t, t1, t2, r1, r2);
    BecameTwice(m, m2, Snap(S), t, t2, RB.Split(t2), r2, r);
  }

  // ---- Replacing a subtree -----------------------------------------------------------------

  lemma Inside(m: Store, t: Shape)
    requires Stands(m, t)
    ensures Nodes(t) <= m.Keys && (t.Branch? ==> t.elem.node in m)
  {
  }

  ghost function WithLeft(m: Store, node: Node, c: Node?): (m': Store)
    requires node in m
  {
    m[node := m[node].(left := c)]
  }

  /** The left subtree of `t` became `l`, and the root takes note. */
  lemma AttachLeft(m: Store, m1: Store, t: Shape, l: Shape)
    requires Stands(m, t) && t.Branch? && Kept(m, m1, Nodes(t.left)) && Stands(m1, l)
    requires forall n :: n in Nodes(l) && n in m ==> n in Nodes(t.left)
    ensures t.elem.node in m1
    ensures Stands(WithLeft(m1, t.elem.node, Top(l)), t.(left := l))
    ensures Kept(m, WithLeft(m1, t.elem.node, Top(l)), Nodes(t))
    ensures Nodes(t.(left := l)) == Nodes(l) + {t.elem.node} + Nodes(t.right)
  {
    hide Stands;
    Parts(m, t);
    assert t.elem.node in m && Nodes(t.right) <= m.Keys by { Inside(m, t); Inside(m, t.right); }
    Untouched(m, m1, t.right, Nodes(t.left));
    var m2 := WithLeft(m1, t.elem.node, Top(l));
    Untouched(m1, m2, l, {t.elem.node});
    Untouched(m1, m2, t.right, {t.elem.node});
    Whole(m2, t.(left := l));
  }

  ghost function WithRight(m: Store, node: Node, c: Node?): (m': Store)
    requires node in m
  {
    m[node := m[node].(right := c)]
  }

  /** The right subtree of `t` became `r`, and the root takes note. */
  lemma AttachRight(m: Store, m1: Store, t: Shape, r: Shape)
    requires Stands(m, t) && t.Branch? && Kept(m, m1, Nodes(t.right)) && Stands(m1, r)
    requires forall n :: n in Nodes(r) && n in m ==> n in Nodes(t.right)
    ensures t.elem.node in m1
    ensures Stands(WithRight(m1, t.elem.node, Top(r)), t.(right := r))
    ensures Kept(m, WithRight(m1, t.elem.node, Top(r)), Nodes(t))
    ensures Nodes(t.(right := r)) == Nodes(t.left) + {t.elem.node} + Nodes(r)
  {
    hide Stands;
    Parts(m, t);
    assert t.elem.node in m && Nodes(t.left) <= m.Keys by { Inside(m, t); Inside(m, t.left); }
    Untouched(m, m1, t.left, Nodes(t.right));
    var m2 := WithRight(m1, t.elem.node, Top(r));
    Untouched(m1, m2, r, {t.elem.node});
    Untouched(m1, m2, t.left, {t.elem.node});
    Whole(m2, t.(right := r));
  }

  method SetLeft(node: Node, c: Node?, ghost S: set<Node>)
    requires node in S
    modifies S
    ensures Snap(S) == WithLeft(old(Snap(S)), node, c)
  {
    node.left := c;
  }

  method SetRight(node: Node, c: Node?, ghost S: set<Node>)
    requires node in S
    modifies S
    ensures Snap(S) == WithRight(old(Snap(S)), node, c)
  {
    node.right := c;
  }

  /** One subtree rearranged within the tree. */
  lemma BecameRight(m: Store, m1: Store, t: Shape, r: Shape, c: Node?)
    requires Stands(m, t) && t.Branch? && Became(m, m1, t.right, r, c)
    ensures t.elem.node in m1 && Became(m, WithRight(m1, t.elem.node, c), t, t.(right := r), t.elem.node)
  {
    hide Stands;
    Parts(m, t);
    AttachRight(m, m1, t, r);
  }

  method MoveRedLeft(node: Node, ghost S: set<Node>, ghost t: Shape) returns (r: Node)
    requires Stands(Snap(S), t) && t.Branch? && t.left.Branch? && t.right.Branch? && t.elem.node == node
    modifies S
    ensures Became(old(Snap(S)), Snap(S), t, RB.MoveRedLeft(t), r)
  {
    hide Stands, Nodes, Kept;
    ghost var m, f := Snap(S), RB.FlipColors(t);
    FlipColors(node, S, t);
    ghost var m1 := Snap(S);
    Seen(S, f);
    Parts(m1, f);
    Seen(S, f.right);
    r := node;
    if IsRedNode(node.right.left) {
      r := BorrowLeft(node, S, f);
      hide Became;
      BecameTwice(m, m1, Snap(S), t, f, RB.MoveRedLeft(t), node, r);
    }
  }

  method BorrowLeft(node: Node, ghost S: set<Node>, ghost f: Shape) returns (r: Node)
    requires Stands(Snap(S), f) && f.Branch? && f.left.Branch? && f.right.Branch? && f.elem.node == node
             && f.right.left.Branch?
    modifies S
    ensures Became(old(Snap(S)), Snap(S), f, RB.FlipColors(RB.RotateLeft(f.(right := RB.RotateRight(f.right)))), r)
  {
    hide Stands, Nodes, Kept;
    ghost var m, g := Snap(S), f.(right := RB.RotateRight(f.right));
    Seen(S, f);
    Parts(m, f);
    var right := RotateRight(node.right, S, f.right);
    ghost var m1 := Snap(S);
    assert Became(m, m1, f.right, RB.RotateRight(f.right), right);
    BecameRight(m, m1, f, RB.RotateRight(f.right), right);
    SetRight(node, right, S);
    ghost var m2 := Snap(S);
    r := RotateLeft(node, S, g);
    ghost var m3, h := Snap(S), RB.RotateLeft(g);
    assert Became(m2, m3, g, h, r);
    FlipColors(r, S, h);
    hide Became;
    BecameTwice(m, m2, m3, f, g, h, node, r);
    BecameTwice(m, m3, Snap(S), f, h, RB.FlipColors(h), r, r);
  }

  method MoveRedRight(node: Node, ghost S: set<Node>, ghost t: Shape) returns (r: Node)
    requires Stands(Snap(S), t) && t.Branch? && t.left.Branch? && t.right.Branch? && t.elem.node == node
    modifies S
    ensures Became(old(Snap(S)), Snap(S), t, RB.MoveRedRight(t), r)
  {
    hide Stands, Nodes, Kept;
    ghost var m, f := Snap(S), RB.FlipColors(t);
    FlipColors(node, S, t);
    ghost var m1 := Snap(S);
    Seen(S, f);
    Parts(m1, f);
    Seen(S, f.left);
    r := node;
    if IsRedNode(node.left.left) {
      r := RotateRight(node, S, f);
      ghost var m2, g := Snap(S), RB.RotateRight(f);
      assert Became(m1, m2, f, g, r);
      FlipColors(r, S, g);
      hide Became;
      BecameTwice(m, m1, m2, t, f, g, node, r);
      BecameTwice(m, m2, Snap(S), t, g, RB.FlipColors(g), r, r);
    }
  }

  // ---- Search order -------------------------------------------------------------------------

  ghost predicate Sorted(s: seq<Item>) {
    forall i, j :: 0 <= i < j < |s| ==> s[i].key < s[j].key
  }

  /** `i` is the place of `key` in `s`: everything before is smaller, nothing from there on is. */
  ghost predicate Slot(s: seq<Item>, key: int, i: int) {
    && 0 <= i <= |s|
    && (forall j :: 0 <= j < i ==> s[j].key < key)
    && (forall j :: i <= j < |s| ==> s[j].key >= key)
  }

  ghost predicate Present(s: seq<Item>, key: int, i: int) {
    0 <= i < |s| && s[i].key == key
  }

  lemma {:induction false} HasSlot(s: seq<Item>, key: int) returns (i: int)
    requires Sorted(s)
    ensures Slot(s, key, i)
  {
    i := 0;
    while i < |s| && s[i].key < key
      invariant 0 <= i <= |s|
      invariant forall j :: 0 <= j < i ==> s[j].key < key
    {
      i := i + 1;
    }
  }

  /** One comparison at the root says in which part the place of a key lies. */
  lemma Descends(a: seq<Item>, x: Item, b: seq<Item>, key: int, i: int)
    requires Sorted(a + [x] + b) && Slot(a + [x] + b, key, i)
    ensures Sorted(a) && Sorted(b)
    ensures key < x.key ==> i <= |a| && Slot(a, key, i) && (Present(a + [x] + b, key, i) <==> Present(a, key, i))
    ensures key == x.key ==> i == |a| && Present(a + [x] + b, key, i)
    ensures key > x.key ==>
              i > |a| && Slot(b, key, i - |a| - 1) && (Present(a + [x] + b, key, i) <==> Present(b, key, i - |a| - 1))
  {
    var s := a + [x] + b;
    assert forall j :: 0 <= j < |a| ==> s[j] == a[j];
    assert s[|a|] == x;
    assert forall j :: 0 <= j < |b| ==> s[|a| + 1 + j] == b[j];
    assert i < |a| ==> s[i].key < s[|a|].key;
  }

  lemma RootDescends(t: Shape, key: int, i: int)
    requires t.Branch? && Sorted(InOrder(t)) && Slot(InOrder(t), key, i)
    ensures Sorted(InOrder(t.left)) && Sorted(InOrder(t.right))
    ensures key < t.elem.key ==>
              && i <= Size(t.left) && Slot(InOrder(t.left), key, i)
              && (Present(InOrder(t), key, i) <==> Present(InOrder(t.left), key, i))
    ensures key == t.elem.key ==> i == Size(t.left) && Present(InOrder(t), key, i)
    ensures key > t.elem.key ==>
              && i > Size(t.left) && Slot(InOrder(t.right), key, i - Size(t.left) - 1)
              && (Present(InOrder(t), key, i) <==> Present(InOrder(t.right), key, i - Size(t.left) - 1))
    ensures 0 <= i <= Size(t)
  {
    hide Sorted, Slot, Present;
    SizeIsLength(t);
    SizeIsLength(t.left);
    SizeIsLength(t.right);
    assert InOrder(t) == InOrder(t.left) + [t.elem] + InOrder(t.right);
    hide InOrder, Size;
    Descends(InOrder(t.left), t.elem, InOrder(t.right), key, i);
    assert 0 <= i <= |InOrder(t)| by { SlotBounds(InOrder(t), key, i); }
  }

  lemma SlotBounds(s: seq<Item>, key: int, i: int)
    requires Slot(s, key, i)
    ensures 0 <= i <= |s|
  {
  }

  // ---- Put ------------------------------------------------------------------------------------

  /** `t` with the value at position `i` replaced. */
  ghost function SetAt(t: Shape, i: int, value: int): (r: Shape) {
    match t
    case Leaf => t
    case Branch(l, x, red, r) =>
      if i < Size(l) then t.(left := SetAt(l, i, value))
      else if i == Size(l) then t.(elem := x.(value := value))
      else t.(right := SetAt(r, i - Size(l) - 1, value))
  }

  lemma {:induction false} SetAtColours(t: Shape, i: int, value: int)
    ensures Size(SetAt(t, i, value)) == Size(t) && BlackHeight(SetAt(t, i, value)) == BlackHeight(t)
    ensures IsRed(SetAt(t, i, value)) == IsRed(t)
    ensures Llrb(t) ==> Llrb(SetAt(t, i, value))
  {
    if t.Branch? {
      SetAtColours(t.left, i, value);
      SetAtColours(t.right, i - Size(t.left) - 1, value);
    }
  }

  lemma {:induction false} SetAtSequence(t: Shape, i: int, value: int)
    requires 0 <= i < |InOrder(t)|
    ensures InOrder(SetAt(t, i, value)) == InOrder(t)[i := InOrder(t)[i].(value := value)]
  {
    if t.Branch? {
      SizeIsLength(t.left);
      if i < Size(t.left) {
        SetAtSequence(t.left, i, value);
      } else if i > Size(t.left) {
        SetAtSequence(t.right, i - Size(t.left) - 1, value);
      }
    }
  }

  /** A legal tree needs no repair. */
  lemma NothingToFix(t: Shape)
    requires t.Branch? && Llrb(t)
    ensures RB.FixUp(t) == t
  {
  }

  ghost function PutAt(t: Shape, i: int, key: int, value: int, x: Node): (u: Shape)
    requires 0 <= i <= Size(t)
  {
    if Present(InOrder(t), key, i) then SetAt(t, i, value) else RB.Insert(t, i, Item(x, key, value))
  }

  lemma PutLeft(t: Shape, i: int, key: int, value: int, x: Node)
    requires t.Branch? && Llrb(t) && Sorted(InOrder(t)) && Slot(InOrder(t), key, i) && key < t.elem.key
    ensures 0 <= i <= Size(t.left)
            && PutAt(t, i, key, value, x) == RB.FixUp(t.(left := PutAt(t.left, i, key, value, x)))
  {
    assert Present(InOrder(t), key, i) ==> i < Size(t.left) by { RootDescends(t, key, i); SizeIsLength(t.left); }
    hide Sorted, Slot, RB.FixUp, InOrder, Present;
    RootDescends(t, key, i);
    if Present(InOrder(t), key, i) {
      SetAtColours(t.left, i, value);
      assert SetAt(t, i, value) == t.(left := SetAt(t.left, i, value));
      NothingToFix(t.(left := SetAt(t.left, i, value)));
    } else {
      assert RB.Insert(t, i, Item(x, key, value)) == RB.FixUp(t.(left := RB.Insert(t.left, i, Item(x, key, value))));
    }
  }

  lemma PutRight(t: Shape, i: int, key: int, value: int, x: Node)
    requires t.Branch? && Llrb(t) && Sorted(InOrder(t)) && Slot(InOrder(t), key, i) && key > t.elem.key
    ensures Size(t.left) < i <= Size(t)
    ensures PutAt(t, i, key, value, x) == RB.FixUp(t.(right := PutAt(t.right, i - Size(t.left) - 1, key, value, x)))
  {
    hide Sorted, Slot, RB.FixUp, InOrder, Present;
    RootDescends(t, key, i);
    var j := i - Size(t.left) - 1;
    if Present(InOrder(t), key, i) {
      SetAtColours(t.right, j, value);
      assert SetAt(t, i, value) == t.(right := SetAt(t.right, j, value));
      NothingToFix(t.(right := SetAt(t.right, j, value)));
    } else {
      assert RB.Insert(t, i, Item(x, key, value)) == RB.FixUp(t.(right := RB.Insert(t.right, j, Item(x, key, value))));
    }
  }

  lemma PutHere(t: Shape, i: int, key: int, value: int, x: Node)
    requires t.Branch? && Llrb(t) && Sorted(InOrder(t)) && Slot(InOrder(t), key, i) && key == t.elem.key
    ensures 0 <= i <= Size(t) && PutAt(t, i, key, value, x) == RB.FixUp(t.(elem := t.elem.(value := value)))
  {
    RootDescends(t, key, i);
    hide Sorted, Slot;
    NothingToFix(t.(elem := t.elem.(value := value)));
  }

  ghost function WithValue(m: Store, node: Node, value: int): (m': Store)
    requires node in m
  {
    m[node := m[node].(value := value)]
  }

  method SetValue(node: Node, value: int, ghost S: set<Node>)
    requires node in S
    modifies S
    ensures Snap(S) == WithValue(old(Snap(S)), node, value)
  {
    node.value := value;
  }

  lemma ValueStands(m: Store, t: Shape, value: int)
    requires Stands(m, t) && t.Branch?
    ensures t.elem.node in m
    ensures Became(m, WithValue(m, t.elem.node, value), t, t.(elem := t.elem.(value := value)), t.elem.node)
  {
    hide Stands;
    Parts(m, t);
    var m' := WithValue(m, t.elem.node, value);
    Untouched(m, m', t.left, {t.elem.node});
    Untouched(m, m', t.right, {t.elem.node});
    Whole(m', t.(elem := t.elem.(value := value)));
  }

  /** The subtree `t` became `u`, of its own nodes and new ones. */
  ghost predicate Grew(m: Store, m': Store, t: Shape, u: Shape, r: Node?) {
    && Stands(m', u) && r == Top(u) && Kept(m, m', Nodes(t))
    && (forall n :: n in Nodes(u) && n in m ==> n in Nodes(t))
  }

  lemma GrewLeft(m: Store, m1: Store, t: Shape, l: Shape, c: Node?)
    requires Stands(m, t) && t.Branch? && Grew(m, m1, t.left, l, c)
    ensures t.elem.node in m1 && Grew(m, WithLeft(m1, t.elem.node, c), t, t.(left := l), t.elem.node)
  {
    hide Stands;
    Parts(m, t);
    AttachLeft(m, m1, t, l);
  }

  lemma GrewRight(m: Store, m1: Store, t: Shape, r: Shape, c: Node?)
    requires Stands(m, t) && t.Branch? && Grew(m, m1, t.right, r, c)
    ensures t.elem.node in m1 && Grew(m, WithRight(m1, t.elem.node, c), t, t.(right := r), t.elem.node)
  {
    hide Stands;
    Parts(m, t);
    AttachRight(m, m1, t, r);
  }

  lemma GrewThen(m: Store, m1: Store, m2: Store, t: Shape, u: Shape, v: Shape, r: Node?, r': Node?)
    requires Grew(m, m1, t, u, r) && Became(m1, m2, u, v, r')
    ensures Grew(m, m2, t, v, r')
  {
    hide Stands, Nodes;
  }

  lemma BecameGrew(m: Store, m': Store, t: Shape, u: Shape, r: Node?)
    requires Became(m, m', t, u, r)
    ensures Grew(m, m', t, u, r)
  {
    hide Stands, Nodes;
  }

  /** A new red node on its own. */
  lemma NewStands(S: set<Node>, x: Node)
    requires x in S && x.left == null && x.right == null && x.isRed
    ensures Stands(Snap(S), Branch(Leaf, Item(x, x.key, x.value), true, Leaf))
    ensures Nodes(Branch(Leaf, Item(x, x.key, x.value), true, Leaf)) == {x}
  {
  }

  method PutInto(tree: Tree, node: Node?, key: int, value: int, ghost S: set<Node>, ghost t: Shape, ghost i: int)
    returns (r: Node, ghost S': set<Node>, ghost x: Node)
    requires Stands(Snap(S), t) && node == Top(t) && Llrb(t) && Sorted(InOrder(t)) && Slot(InOrder(t), key, i)
    modifies tree`size, S
    ensures S <= S' && fresh(S' - S) && 0 <= i <= Size(t)
    ensures Grew(old(Snap(S)), Snap(S'), t, PutAt(t, i, key, value, x), r)
    ensures tree.size == old(tree.size) + if Present(InOrder(t), key, i) then 0 else 1
    decreases t
  {
    ghost var m := Snap(S);
    if node == null {
      tree.size := tree.size + 1;
      r := new Node(key, value, true);
      x, S' := r, S + {r};
      NewStands(S', r);
      return;
    }
    hide Stands, Grew, Became, Sorted, Slot, Present, PutAt, Llrb, InOrder;
    r, S', x := PutBelow(tree, node, key, value, S, t, i);
  }

  method PutBelow(tree: Tree, node: Node, key: int, value: int, ghost S: set<Node>, ghost t: Shape, ghost i: int)
    returns (r: Node, ghost S': set<Node>, ghost x: Node)
    requires Stands(Snap(S), t) && t.Branch? && node == Top(t) && Llrb(t) && Sorted(InOrder(t))
             && Slot(InOrder(t), key, i)
    modifies tree`size, S
    ensures S <= S' && fresh(S' - S) && 0 <= i <= Size(t)
    ensures Grew(old(Snap(S)), Snap(S'), t, PutAt(t, i, key, value, x), r)
    ensures tree.size == old(tree.size) + if Present(InOrder(t), key, i) then 0 else 1
    decreases t, 0
  {
    hide Stands, Grew, Became, Sorted, Slot, Present, PutAt, InOrder;
    ghost var m := Snap(S);
    Seen(S, t);
    Parts(m, t);
    RootDescends(t, key, i);
    ghost var t1;
    if key < node.key {
      var l;
      l, S', x := PutInto(tree, node.left, key, value, S, t.left, i);
      GrewLeft(m, Snap(S'), t, PutAt(t.left, i, key, value, x), l);
      SetLeft(node, l, S');
      PutLeft(t, i, key, value, x);
      t1 := t.(left := PutAt(t.left, i, key, value, x));
    } else if key > node.key {
      var c;
      c, S', x := PutInto(tree, node.right, key, value, S, t.right, i - Size(t.left) - 1);
      GrewRight(m, Snap(S'), t, PutAt(t.right, i - Size(t.left) - 1, key, value, x), c);
      SetRight(node, c, S');
      PutRight(t, i, key, value, x);
      t1 := t.(right := PutAt(t.right, i - Size(t.left) - 1, key, value, x));
    } else {
      S', x := S, node;
      ValueStands(m, t, value);
      SetValue(node, value, S);
      BecameGrew(m, Snap(S), t, t.(elem := t.elem.(value := value)), node);
      PutHere(t, i, key, value, x);
      t1 := t.(elem := t.elem.(value := value));
    }
    ghost var m1 := Snap(S');
    GrewStands(m, m1, t, t1, node);
    r := Rebalance(node, S', t1);
    GrewThen(m, m1, Snap(S'), t, t1, RB.FixUp(t1), node, r);
  }

  lemma GrewStands(m: Store, m': Store, t: Shape, u: Shape, r: Node?)
    requires Grew(m, m', t, u, r)
    ensures Stands(m', u) && r == Top(u)
  {
  }

  // ---- Removal ----------------------------------------------------------------------------------

  lemma ThenGrew(m: Store, m1: Store, m2: Store, t: Shape, u: Shape, v: Shape, r: Node?, r': Node?)
    requires Became(m, m1, t, u, r) && Grew(m1, m2, u, v, r')
    ensures Grew(m, m2, t, v, r')
  {
    hide Stands, Nodes;
  }

  lemma BothBranches(t: Shape)
    requires Ready(t) && t.left.Branch? && !IsRed(t.left)
    ensures t.right.Branch?
  {
  }

  /** The step before going left. */
  method EnterLeft(node: Node, ghost S: set<Node>, ghost t: Shape) returns (r: Node)
    requires Stands(Snap(S), t) && Ready(t) && t.left.Branch? && t.elem.node == node
    modifies S
    ensures Became(old(Snap(S)), Snap(S), t, RB.PrepareLeft(t), r)
  {
    hide Stands, Nodes, Kept, Ready, RB.MoveRedLeft;
    assert t.Branch? by { ReadyBranch(t); }
    Seen(S, t);
    BecameItself(Snap(S), t);
    Parts(Snap(S), t);
    Seen(S, t.left);
    if !IsRed(t.left) { BothBranches(t); }
    hide Became;
    r := node;
    if !IsRedNode(node.left) && !IsRedNode(node.left.left) {
      r := MoveRedLeft(node, S, t);
    }
  }

  lemma ReadyBranch(t: Shape)
    requires Ready(t) || RedRight(t)
    ensures t.Branch?
  {
  }

  /** The first step before going right. */
  method LeanRight(node: Node, ghost S: set<Node>, ghost t: Shape) returns (r: Node)
    requires Stands(Snap(S), t) && t.Branch? && t.elem.node == node
    modifies S
    ensures Became(old(Snap(S)), Snap(S), t, RB.LeanRight(t), r)
  {
    hide Stands, Nodes, Kept;
    Seen(S, t);
    BecameItself(Snap(S), t);
    r := node;
    if IsRedNode(node.left) {
      r := RotateRight(node, S, t);
    }
  }

  /** The second step before going right. */
  method EnterRight(node: Node, ghost S: set<Node>, ghost t: Shape, ghost u: Shape) returns (r: Node)
    requires (Ready(t) || RedRight(t)) && u == RB.LeanRight(t) && u.right.Branch?
    requires Stands(Snap(S), u) && u.elem.node == node
    modifies S
    ensures Became(old(Snap(S)), Snap(S), u, RB.PrepareRight(t), r)
  {
    hide Stands, Nodes, Kept, Ready, RB.MoveRedRight, RedRight;
    LeanRightOpens(t);
    RightNeedsLeft(t);
    hide RB.LeanRight;
    Seen(S, u);
    BecameItself(Snap(S), u);
    Parts(Snap(S), u);
    Seen(S, u.right);
    hide Became;
    r := node;
    if !IsRedNode(node.right) && !IsRedNode(node.right.left) {
      r := MoveRedRight(node, S, u);
    }
  }

  lemma RightNeedsLeft(t: Shape)
    requires Ready(t) || RedRight(t)
    ensures var u := RB.LeanRight(t); u.right.Branch? && !IsRed(u.right) ==> u.left.Branch?
  {
    LeanRightOpens(t);
  }

  method Min(node: Node, ghost S: set<Node>, ghost t: Shape) returns (r: Node)
    requires Stands(Snap(S), t) && t.Branch? && t.elem.node == node
    ensures r in S && Item(r, r.key, r.value) == First(t)
    decreases t
  {
    hide Stands;
    Seen(S, t);
    Parts(Snap(S), t);
    if node.left == null {
      return node;
    }
    r := Min(node.left, S, t.left);
  }

  method RemoveMin(node: Node, ghost S: set<Node>, ghost t: Shape) returns (r: Node?)
    requires Stands(Snap(S), t) && Ready(t) && t.elem.node == node
    modifies S
    ensures Grew(old(Snap(S)), Snap(S), t, RB.RemoveMin(t), r)
    decreases Size(t)
  {
    ghost var m := Snap(S);
    Seen(S, t);
    if node.left == null {
      NothingLeft(m, t);
      return null;
    }
    hide Stands, Grew, Became, Ready, RB.PrepareLeft, RB.FixUp, RB.FixUpEager;
    r := RemoveMinBelow(node, S, t);
  }

  lemma NothingLeft(m: Store, t: Shape)
    ensures Grew(m, m, t, Leaf, null)
  {
  }

  /** What `Became` says of the tree it leaves. */
  lemma BecameStands(m: Store, m': Store, t: Shape, u: Shape, r: Node?)
    requires Became(m, m', t, u, r)
    ensures Stands(m', u) && r == Top(u)
  {
  }

  method RemoveMinBelow(node: Node, ghost S: set<Node>, ghost t: Shape) returns (r: Node)
    requires Stands(Snap(S), t) && Ready(t) && t.left.Branch? && t.elem.node == node
    modifies S
    ensures Grew(old(Snap(S)), Snap(S), t, RB.RemoveMin(t), r)
    decreases Size(t), 0
  {
    ghost var m, u := Snap(S), RB.PrepareLeft(t);
    MinStep(t);
    ghost var v := u.(left := RB.RemoveMin(u.left));
    assert u.left.Branch? by { ReadyBranch(u.left); }
    hide Stands, Grew, Became, Ready, RB.PrepareLeft, RB.FixUp, RB.FixUpEager, RB.RemoveMin;
    r := EnterLeft(node, S, t);
    ghost var m1, r1 := Snap(S), r;
    BecameStands(m, m1, t, u, r1);
    Seen(S, u);
    Parts(m1, u);
    var l := RemoveMin(r.left, S, u.left);
    GrewLeft(m1, Snap(S), u, RB.RemoveMin(u.left), l);
    SetLeft(r, l, S);
    ghost var m2 := Snap(S);
    GrewStands(m1, m2, u, v, r);
    r := FixUp(r, S, v);
    GrewThen(m1, m2, Snap(S), u, v, RB.FixUp(v), r1, r);
    ThenGrew(m, m1, Snap(S), t, u, RB.FixUp(v), r1, r);
  }

  lemma MinStep(t: Shape)
    requires Ready(t) && t.left.Branch?
    ensures var u := RB.PrepareLeft(t);
            && Ready(u.left) && Size(u.left) < Size(t)
            && var v := u.(left := RB.RemoveMin(u.left));
            && RB.RemoveMin(t) == RB.FixUp(v) && RB.FixUpEager(v) == RB.FixUp(v)
  {
    hide RB.FixUp, RB.FixUpEager, RB.PrepareLeft;
    PrepareLeftOpens(t);
    var u := RB.PrepareLeft(t);
    RemoveMinBalance(u.left);
    FixUpAgrees(u.(left := RB.RemoveMin(u.left)));
  }

  // Removal copies a key and a value from one node to another: up to which node holds what,
  // the result is the deletion of a position.

  datatype Entry = Entry(key: int, value: int)

  ghost function Erase(t: Shape): (r: RB.Tree<Entry>) {
    match t
    case Leaf => Leaf
    case Branch(l, x, red, r) => Branch(Erase(l), Entry(x.key, x.value), red, Erase(r))
  }

  ghost function Entries(s: seq<Item>): (r: seq<Entry>) {
    seq(|s|, i requires 0 <= i < |s| => Entry(s[i].key, s[i].value))
  }

  lemma {:induction false} EraseKeeps(t: Shape)
    ensures Size(Erase(t)) == Size(t) && BlackHeight(Erase(t)) == BlackHeight(t) && IsRed(Erase(t)) == IsRed(t)
    ensures Llrb(Erase(t)) == Llrb(t)
  {
    if t.Branch? {
      EraseKeeps(t.left);
      EraseKeeps(t.right);
    }
  }

  lemma {:induction false} EraseSequence(t: Shape)
    ensures InOrder(Erase(t)) == Entries(InOrder(t))
  {
    if t.Branch? {
      EraseSequence(t.left);
      EraseSequence(t.right);
    }
  }

  lemma EraseLean(t: Shape)
    requires t.Branch?
    ensures Erase(RB.LeanLeft(t)) == RB.LeanLeft(Erase(t))
  {
  }

  lemma EraseStraighten(t: Shape)
    requires t.Branch?
    ensures Erase(RB.Straighten(t)) == RB.Straighten(Erase(t))
  {
    if t.left.Branch? {
      assert Erase(t.left).left == Erase(t.left.left) && IsRed(Erase(t.left.left)) == IsRed(t.left.left);
    }
  }

  lemma EraseSplit(t: Shape)
    requires t.Branch?
    ensures Erase(RB.Split(t)) == RB.Split(Erase(t))
  {
  }

  lemma EraseFixUp(t: Shape)
    requires t.Branch?
    ensures Erase(RB.FixUp(t)) == RB.FixUp(Erase(t))
  {
    EraseLean(t);
    EraseStraighten(RB.LeanLeft(t));
    EraseSplit(RB.Straighten(RB.LeanLeft(t)));
    hide RB.LeanLeft, RB.Straighten, RB.Split;
  }

  /** Repairs of trees that differ only in which node holds what differ only in that. */
  lemma SameFixUp(t: Shape, u: Shape)
    requires t.Branch? && u.Branch? && Erase(t) == Erase(u)
    ensures Erase(RB.FixUp(t)) == Erase(RB.FixUp(u))
  {
    hide RB.FixUp;
    EraseFixUp(t);
    EraseFixUp(u);
  }

  lemma SameLlrb(t: Shape, u: Shape)
    requires Erase(t) == Erase(u)
    ensures Llrb(t) == Llrb(u) && BlackHeight(t) == BlackHeight(u) && IsRed(t) == IsRed(u) && Size(t) == Size(u)
  {
    EraseKeeps(t);
    EraseKeeps(u);
  }

  ghost function WithEntry(m: Store, node: Node, key: int, value: int): (m': Store)
    requires node in m
  {
    m[node := m[node].(key := key, value := value)]
  }

  method CopyEntry(node: Node, from: Node, ghost S: set<Node>)
    requires node in S
    modifies S
    ensures Snap(S) == WithEntry(old(Snap(S)), node, old(from.key), old(from.value))
  {
    node.value := from.value;
    node.key := from.key;
  }

  lemma EntryStands(m: Store, t: Shape, key: int, value: int)
    requires Stands(m, t) && t.Branch?
    ensures t.elem.node in m
    ensures Became(m, WithEntry(m, t.elem.node, key, value), t, t.(elem := Item(t.elem.node, key, value)), t.elem.node)
  {
    hide Stands;
    Parts(m, t);
    var m' := WithEntry(m, t.elem.node, key, value);
    Untouched(m, m', t.left, {t.elem.node});
    Untouched(m, m', t.right, {t.elem.node});
    Whole(m', t.(elem := Item(t.elem.node, key, value)));
  }

  /** Replaces what the root `v` holds by the smallest of its right subtree, which goes. */
  method PromoteSmallest(node: Node, ghost S: set<Node>, ghost v: Shape) returns (r: Node, ghost w: Shape)
    requires Stands(Snap(S), v) && v.Branch? && v.elem.node == node && Ready(v.right) && Llrb(v.left)
    modifies S
    ensures Grew(old(Snap(S)), Snap(S), v, w, r)
    ensures Erase(w) == Erase(RB.FixUp(v.(elem := First(v.right), right := RB.RemoveMin(v.right))))
  {
    hide Stands, Grew, Became, Ready, RB.FixUp, RB.FixUpEager, RB.RemoveMin;
    ghost var m := Snap(S);
    ReadyBranch(v.right);
    Seen(S, v);
    Parts(m, v);
    var smallest := Min(node.right, S, v.right);
    ghost var x := First(v.right);
    ghost var v1 := v.(elem := Item(node, x.key, x.value));
    EntryStands(m, v, x.key, x.value);
    CopyEntry(node, smallest, S);
    ghost var m1 := Snap(S);
    BecameStands(m, m1, v, v1, node);
    Seen(S, v1);
    Parts(m1, v1);
    var c := RemoveMin(node.right, S, v.right);
    ghost var v2 := v1.(right := RB.RemoveMin(v.right));
    GrewRight(m1, Snap(S), v1, RB.RemoveMin(v.right), c);
    SetRight(node, c, S);
    ghost var m2 := Snap(S);
    GrewStands(m1, m2, v1, v2, node);
    FixUpAgrees(v2);
    r := FixUp(node, S, v2);
    w := RB.FixUp(v2);
    GrewThen(m1, m2, Snap(S), v1, v2, w, node, r);
    ThenGrew(m, m1, Snap(S), v, v1, w, node, r);
    SameFixUp(v2, v.(elem := x, right := RB.RemoveMin(v.right)));
  }

  /** Where the key sits, seen from the root. */
  lemma KeySide(t: Shape, key: int, i: int)
    requires t.Branch? && Sorted(InOrder(t)) && Present(InOrder(t), key, i)
    ensures 0 <= i < Size(t) && Sorted(InOrder(t.left)) && Sorted(InOrder(t.right))
    ensures key < t.elem.key <==> i < Size(t.left)
    ensures key == t.elem.key <==> i == Size(t.left)
    ensures i < Size(t.left) ==> Present(InOrder(t.left), key, i)
    ensures i > Size(t.left) ==> Present(InOrder(t.right), key, i - Size(t.left) - 1)
  {
    PresentSlot(InOrder(t), key, i);
    SizeIsLength(t);
    SizeIsLength(t.left);
    hide Sorted, Slot, InOrder, Size;
    RootDescends(t, key, i);
  }

  lemma PresentSlot(s: seq<Item>, key: int, i: int)
    requires Sorted(s) && Present(s, key, i)
    ensures Slot(s, key, i)
  {
  }

  method Remove(tree: Tree, node: Node, key: int, ghost S: set<Node>, ghost t: Shape, ghost i: int)
    returns (r: Node?, ghost u: Shape)
    requires 0 <= i && Stands(Snap(S), t) && node == Top(t) && ReadyAt(t, i) && Sorted(InOrder(t))
             && Present(InOrder(t), key, i)
    modifies tree`size, S
    ensures Grew(old(Snap(S)), Snap(S), t, u, r) && Erase(u) == Erase(RB.Delete(t, i))
    ensures tree.size == old(tree.size) - 1
    decreases Size(t), 2
  {
    assert t.Branch? && (Ready(t) || RedRight(t));
    hide Stands, Grew, Became, Sorted, Present, InOrder, RB.Delete, ReadyAt;
    Seen(S, t);
    KeySide(t, key, i);
    if key < node.key {
      r, u := RemoveLeft(tree, node, key, S, t, i);
    } else {
      r, u := RemoveRight(tree, node, key, S, t, i);
    }
  }

  lemma LeftDelete(t: Shape, i: int)
    requires 0 <= i && ReadyAt(t, i) && i < Size(t.left)
    ensures Ready(t) && t.left.Branch?
    ensures var u := RB.PrepareLeft(t);
            && ReadyAt(u.left, i) && u.left.Branch? && Size(u.left) < Size(t) && i < Size(u.left)
            && RB.Delete(t, i) == RB.FixUp(u.(left := RB.Delete(u.left, i)))
            && Llrb(RB.Delete(u.left, i))
            && InOrder(u) == InOrder(t)
  {
    hide RB.FixUp, RB.PrepareLeft;
    PrepareLeftOpens(t);
    PrepareLeftSequence(t);
    DeleteBalance(RB.PrepareLeft(t).left, i);
  }

  method RemoveLeft(tree: Tree, node: Node, key: int, ghost S: set<Node>, ghost t: Shape, ghost i: int)
    returns (r: Node, ghost w: Shape)
    requires t.Branch? && Stands(Snap(S), t) && node == Top(t) && Sorted(InOrder(t)) && Present(InOrder(t), key, i)
    requires 0 <= i && ReadyAt(t, i) && i < Size(t.left)
    modifies tree`size, S
    ensures Grew(old(Snap(S)), Snap(S), t, w, r) && Erase(w) == Erase(RB.Delete(t, i))
    ensures tree.size == old(tree.size) - 1
    decreases Size(t), 1
  {
    hide Stands, Grew, Became, Sorted, Present, InOrder, RB.Delete, ReadyAt, Ready, RB.PrepareLeft, RB.FixUp,
         RB.FixUpEager;
    ghost var m := Snap(S);
    LeftDelete(t, i);
    ghost var u := RB.PrepareLeft(t);
    r := EnterLeft(node, S, t);
    ghost var m1, r1 := Snap(S), r;
    BecameStands(m, m1, t, u, r1);
    Seen(S, u);
    Parts(m1, u);
    KeySide(u, key, i);
    var c; ghost var l;
    c, l := Remove(tree, r.left, key, S, u.left, i);
    ghost var v := u.(left := l);
    GrewLeft(m1, Snap(S), u, l, c);
    SetLeft(r, c, S);
    ghost var m2 := Snap(S);
    GrewStands(m1, m2, u, v, r1);
    SameLlrb(l, RB.Delete(u.left, i));
    FixUpAgrees(v);
    r := FixUp(r, S, v);
    w := RB.FixUp(v);
    GrewThen(m1, m2, Snap(S), u, v, w, r1, r);
    ThenGrew(m, m1, Snap(S), t, u, w, r1, r);
    SameFixUp(v, u.(left := RB.Delete(u.left, i)));
  }

  lemma RightDelete(t: Shape, i: int)
    requires 0 <= i && ReadyAt(t, i) && Size(t.left) <= i
    ensures Ready(t) || RedRight(t)
    ensures RB.LeanRight(t).right.Leaf? ==> RB.Delete(t, i) == Leaf && t.left.Leaf? && t.right.Leaf?
    ensures RB.LeanRight(t).right.Branch? ==>
              && OpenAt(RB.PrepareRight(t), i) && RB.Delete(t, i) == DeleteBelow(RB.PrepareRight(t), i)
              && InOrder(RB.PrepareRight(t)) == InOrder(t) && Llrb(RB.PrepareRight(t).left)
              && Size(RB.PrepareRight(t)) == Size(t)
  {
    LeanRightOpens(t);
    if RB.LeanRight(t).right.Branch? {
      hide RB.PrepareRight, RB.LeanRight, DeleteBelow;
      PrepareRightOpens(t, i);
      PrepareRightSequence(t);
    }
  }

  method RemoveRight(tree: Tree, node: Node, key: int, ghost S: set<Node>, ghost t: Shape, ghost i: int)
    returns (r: Node?, ghost w: Shape)
    requires t.Branch? && Stands(Snap(S), t) && node == Top(t) && Sorted(InOrder(t)) && Present(InOrder(t), key, i)
    requires 0 <= i && ReadyAt(t, i) && Size(t.left) <= i
    modifies tree`size, S
    ensures Grew(old(Snap(S)), Snap(S), t, w, r) && Erase(w) == Erase(RB.Delete(t, i))
    ensures tree.size == old(tree.size) - 1
    decreases Size(t), 1
  {
    hide Stands, Grew, Became, Sorted, Present, InOrder, RB.Delete, ReadyAt, Ready, RedRight, RB.PrepareRight,
         DeleteBelow, OpenAt;
    ghost var m := Snap(S);
    RightDelete(t, i);
    ghost var u := RB.LeanRight(t);
    LeanSequence(t);
    hide RB.LeanRight;
    var top := LeanRight(node, S, t);
    ghost var m1 := Snap(S);
    BecameStands(m, m1, t, u, top);
    Seen(S, u);
    KeySide(u, key, i);
    if key == top.key && top.right == null {
      tree.size := tree.size - 1;
      NothingLeft(m1, u);
      ThenGrew(m, m1, Snap(S), t, u, Leaf, top, null);
      return null, Leaf;
    }
    LeafIsHere(t, u, i);
    ghost var v := RB.PrepareRight(t);
    var next := EnterRight(top, S, t, u);
    ghost var m2 := Snap(S);
    BecameTwice(m, m1, m2, t, u, v, top, next);
    BecameStands(m, m2, t, v, next);
    r, w := RemoveBelow(tree, next, key, S, v, i);
    ThenGrew(m, m2, Snap(S), t, v, w, next, r);
  }

  lemma LeanSequence(t: Shape)
    requires t.Branch?
    ensures InOrder(RB.LeanRight(t)) == InOrder(t)
  {
    if IsRed(t.left) {
      RotateRightSequence(t);
    }
  }

  /** Where the right side is empty the tree is one node, and the key is there. */
  lemma LeafIsHere(t: Shape, u: Shape, i: int)
    requires t.Branch? && (Ready(t) || RedRight(t)) && u == RB.LeanRight(t) && 0 <= i < Size(t)
    requires u.right.Leaf? ==> t.left.Leaf? && t.right.Leaf?
    requires !(i == Size(u.left) && u.right.Leaf?)
    ensures u.right.Branch?
  {
  }

  method RemoveBelow(tree: Tree, node: Node, key: int, ghost S: set<Node>, ghost v: Shape, ghost i: int)
    returns (r: Node, ghost w: Shape)
    requires v.Branch? && Stands(Snap(S), v) && node == Top(v) && Sorted(InOrder(v)) && Present(InOrder(v), key, i)
    requires 0 <= i && OpenAt(v, i) && Llrb(v.left)
    modifies tree`size, S
    ensures Grew(old(Snap(S)), Snap(S), v, w, r) && Erase(w) == Erase(DeleteBelow(v, i))
    ensures tree.size == old(tree.size) - 1
    decreases Size(v), 0
  {
    hide Stands, Grew, Became, Sorted, Present, InOrder, RB.Delete, ReadyAt, Ready, RB.FixUp, RB.FixUpEager,
         RB.RemoveMin;
    ghost var m := Snap(S);
    Seen(S, v);
    KeySide(v, key, i);
    if key == node.key {
      tree.size := tree.size - 1;
      r, w := PromoteSmallest(node, S, v);
    } else {
      Parts(m, v);
      ghost var j := i - Size(v.left) - 1;
      BelowReady(v.right, j);
      var c; ghost var d;
      c, d := Remove(tree, node.right, key, S, v.right, j);
      ghost var v1 := v.(right := d);
      GrewRight(m, Snap(S), v, d, c);
      SetRight(node, c, S);
      ghost var m1 := Snap(S);
      GrewStands(m, m1, v, v1, node);
      FixUpAgrees(v1);
      r := FixUp(node, S, v1);
      w := RB.FixUp(v1);
      GrewThen(m, m1, Snap(S), v, v1, w, node, r);
      SameFixUp(v1, v.(right := RB.Delete(v.right, j)));
    }
  }

  lemma BelowReady(t: Shape, j: int)
    requires 0 <= j && ReadyAt(t, j)
    ensures t.Branch?
  {
  }

  // ---- The map a tree stands for ---------------------------------------------------------------

  ghost predicate Ordered(s: seq<Entry>) {
    forall i, j :: 0 <= i < j < |s| ==> s[i].key < s[j].key
  }

  ghost predicate HasKey(s: seq<Entry>, key: int) {
    exists i :: 0 <= i < |s| && s[i].key == key
  }

  /** `m` holds what the entries say and nothing else. */
  ghost predicate Means(s: seq<Entry>, m: map<int, int>) {
    && (forall i :: 0 <= i < |s| ==> s[i].key in m && m[s[i].key] == s[i].value)
    && (forall key :: key in m ==> HasKey(s, key))
  }

  ghost function AsMap(s: seq<Entry>): (m: map<int, int>) {
    if s == [] then map[] else AsMap(s[..|s| - 1])[s[|s| - 1].key := s[|s| - 1].value]
  }

  lemma {:induction false} AsMapMeans(s: seq<Entry>)
    requires Ordered(s)
    ensures Means(s, AsMap(s)) && |AsMap(s)| == |s|
  {
    if s != [] {
      var n := |s| - 1;
      AsMapMeans(s[..n]);
      AppendMeans(s[..n], AsMap(s[..n]), s[n]);
      assert s == s[..n] + [s[n]];
    }
  }

  lemma AppendMeans(s: seq<Entry>, m: map<int, int>, e: Entry)
    requires Means(s, m) && forall j :: 0 <= j < |s| ==> s[j].key < e.key
    ensures Means(s + [e], m[e.key := e.value]) && e.key !in m
  {
    SpliceMeans(s, m, |s|, e);
    assert Splice(s, |s|, e) == s + [e];
    assert e.key in m ==> HasKey(s, e.key);
  }

  lemma OneMeaning(s: seq<Entry>, a: map<int, int>, b: map<int, int>)
    requires Means(s, a) && Means(s, b)
    ensures a == b
  {
    forall key ensures key in a <==> key in b {
      if key in a { assert HasKey(s, key); }
      if key in b { assert HasKey(s, key); }
    }
    forall key | key in a ensures a[key] == b[key] {
      assert HasKey(s, key);
    }
  }

  lemma SetMeans(s: seq<Entry>, m: map<int, int>, i: int, value: int)
    requires Ordered(s) && Means(s, m) && 0 <= i < |s|
    ensures Ordered(s[i := s[i].(value := value)])
    ensures Means(s[i := s[i].(value := value)], m[s[i].key := value])
  {
    var t := s[i := s[i].(value := value)];
    forall key | key in m ensures HasKey(t, key) {
      assert HasKey(s, key);
      var j :| 0 <= j < |s| && s[j].key == key;
      assert t[j].key == key;
    }
    assert HasKey(t, s[i].key) by { assert t[i].key == s[i].key; }
  }

  lemma SpliceIndex(s: seq<Entry>, i: int, e: Entry, j: int)
    requires 0 <= i <= |s|
    ensures |Splice(s, i, e)| == |s| + 1
    ensures 0 <= j <= |s| ==> Splice(s, i, e)[j] == if j < i then s[j] else if j == i then e else s[j - 1]
  {
  }

  lemma SpliceMeans(s: seq<Entry>, m: map<int, int>, i: int, e: Entry)
    requires Means(s, m) && 0 <= i <= |s|
    requires (forall j :: 0 <= j < i ==> s[j].key < e.key) && (forall j :: i <= j < |s| ==> s[j].key > e.key)
    ensures Means(Splice(s, i, e), m[e.key := e.value])
  {
    var t, m' := Splice(s, i, e), m[e.key := e.value];
    SpliceIndex(s, i, e, i);
    hide Splice;
    forall j | 0 <= j < |t| ensures t[j].key in m' && m'[t[j].key] == t[j].value {
      SpliceIndex(s, i, e, j);
    }
    forall key | key in m' ensures HasKey(t, key) {
      if key == e.key {
        assert t[i].key == key;
      } else {
        assert HasKey(s, key);
        var j :| 0 <= j < |s| && s[j].key == key;
        SpliceIndex(s, i, e, if j < i then j else j + 1);
        assert t[if j < i then j else j + 1].key == key;
      }
    }
  }

  lemma SpliceOrdered(s: seq<Entry>, i: int, e: Entry)
    requires Ordered(s) && 0 <= i <= |s|
    requires (forall j :: 0 <= j < i ==> s[j].key < e.key) && (forall j :: i <= j < |s| ==> s[j].key > e.key)
    ensures Ordered(Splice(s, i, e))
  {
  }

  lemma CutIndex(s: seq<Entry>, i: int, j: int)
    requires 0 <= i < |s|
    ensures |Cut(s, i)| == |s| - 1
    ensures 0 <= j < |s| - 1 ==> Cut(s, i)[j] == if j < i then s[j] else s[j + 1]
  {
  }

  lemma CutMeans(s: seq<Entry>, m: map<int, int>, i: int)
    requires Ordered(s) && Means(s, m) && 0 <= i < |s|
    ensures Ordered(Cut(s, i)) && Means(Cut(s, i), m - {s[i].key})
  {
    var t := Cut(s, i);
    CutIndex(s, i, 0);
    hide Cut;
    forall j, k | 0 <= j < k < |t| ensures t[j].key < t[k].key {
      CutIndex(s, i, j);
      CutIndex(s, i, k);
    }
    forall j | 0 <= j < |t| ensures t[j].key in m - {s[i].key} && (m - {s[i].key})[t[j].key] == t[j].value {
      CutIndex(s, i, j);
    }
    forall key | key in m && key != s[i].key ensures HasKey(t, key) {
      assert HasKey(s, key);
      var j :| 0 <= j < |s| && s[j].key == key;
      CutIndex(s, i, if j < i then j else j - 1);
      assert t[if j < i then j else j - 1].key == key;
    }
  }

  lemma EntriesOrdered(t: Shape)
    ensures Ordered(Entries(InOrder(t))) == Sorted(InOrder(t))
  {
    var s, e := InOrder(t), Entries(InOrder(t));
    assert forall i :: 0 <= i < |s| ==> e[i].key == s[i].key;
  }

  lemma EntriesSet(s: seq<Item>, i: int, value: int)
    requires 0 <= i < |s|
    ensures Entries(s[i := s[i].(value := value)]) == Entries(s)[i := Entries(s)[i].(value := value)]
  {
  }

  lemma EntriesSplice(s: seq<Item>, i: int, x: Item)
    requires 0 <= i <= |s|
    ensures Entries(Splice(s, i, x)) == Splice(Entries(s), i, Entry(x.key, x.value))
  {
    var a, b := Entries(Splice(s, i, x)), Splice(Entries(s), i, Entry(x.key, x.value));
    forall j | 0 <= j < |a| ensures a[j] == b[j] {
      if j < i { assert Splice(s, i, x)[j] == s[j]; } else if j > i { assert Splice(s, i, x)[j] == s[j - 1]; }
    }
  }

  lemma PutEntries(t: Shape, i: int, key: int, value: int, x: Node)
    requires Slot(InOrder(t), key, i)
    ensures 0 <= i <= Size(t) == |Entries(InOrder(t))|
    ensures var e := Entries(InOrder(t));
            Entries(InOrder(PutAt(t, i, key, value, x))) ==
              if Present(InOrder(t), key, i) then e[i := e[i].(value := value)] else Splice(e, i, Entry(key, value))
  {
    SizeIsLength(t);
    SlotBounds(InOrder(t), key, i);
    hide Slot, InOrder, SetAt, RB.Insert, Splice;
    if Present(InOrder(t), key, i) {
      SetAtSequence(t, i, value);
      EntriesSet(InOrder(t), i, value);
    } else {
      InsertSequence(t, i, Item(x, key, value));
      EntriesSplice(InOrder(t), i, Item(x, key, value));
    }
  }

  /** Putting a key at its place in the entries puts it in the map. */
  lemma PlaceInMap(e: seq<Entry>, i: int, key: int, value: int)
    requires Ordered(e) && 0 <= i <= |e|
    requires (forall j :: 0 <= j < i ==> e[j].key < key) && (forall j :: i <= j < |e| ==> e[j].key >= key)
    ensures var e' := if i < |e| && e[i].key == key then e[i := e[i].(value := value)]
                      else Splice(e, i, Entry(key, value));
            Ordered(e') && AsMap(e') == AsMap(e)[key := value]
  {
    AsMapMeans(e);
    var e' := if i < |e| && e[i].key == key then e[i := e[i].(value := value)] else Splice(e, i, Entry(key, value));
    if i < |e| && e[i].key == key {
      SetMeans(e, AsMap(e), i, value);
    } else {
      SpliceOrdered(e, i, Entry(key, value));
      SpliceMeans(e, AsMap(e), i, Entry(key, value));
    }
    hide Means, Splice, Ordered;
    AsMapMeans(e');
    OneMeaning(e', AsMap(e'), AsMap(e)[key := value]);
  }

  lemma SlotInEntries(s: seq<Item>, key: int, i: int)
    requires Slot(s, key, i)
    ensures 0 <= i <= |s| == |Entries(s)|
    ensures forall j :: 0 <= j < i ==> Entries(s)[j].key < key
    ensures forall j :: i <= j < |s| ==> Entries(s)[j].key >= key
    ensures Present(s, key, i) <==> i < |s| && Entries(s)[i].key == key
  {
  }

  /** The map after a Put. */
  lemma PutMeans(t: Shape, i: int, key: int, value: int, x: Node)
    requires Sorted(InOrder(t)) && Slot(InOrder(t), key, i)
    ensures 0 <= i <= Size(t) && Sorted(InOrder(PutAt(t, i, key, value, x)))
    ensures AsMap(Entries(InOrder(PutAt(t, i, key, value, x)))) == AsMap(Entries(InOrder(t)))[key := value]
    ensures Size(PutAt(t, i, key, value, x)) == Size(t) + if Present(InOrder(t), key, i) then 0 else 1
  {
    hide Sorted, Slot, InOrder, PutAt, Ordered, AsMap, Present;
    PutEntries(t, i, key, value, x);
    var u := PutAt(t, i, key, value, x);
    SlotInEntries(InOrder(t), key, i);
    EntriesOrdered(t);
    EntriesOrdered(u);
    SizeIsLength(u);
    PlaceInMap(Entries(InOrder(t)), i, key, value);
  }

  /** The map after a Remove. */
  lemma RemoveMeans(t: Shape, i: int, key: int, u: Shape)
    requires 0 <= i && ReadyAt(t, i) && Sorted(InOrder(t)) && Present(InOrder(t), key, i)
             && Erase(u) == Erase(RB.Delete(t, i))
    ensures Sorted(InOrder(u)) && Size(u) == Size(t) - 1
    ensures AsMap(Entries(InOrder(u))) == AsMap(Entries(InOrder(t))) - {key}
  {
    var e := Entries(InOrder(t));
    hide RB.Delete, ReadyAt;
    DeleteSequence(t, i);
    EraseSequence(u);
    EraseSequence(RB.Delete(t, i));
    assert Entries(InOrder(u)) == Cut(e, i);
    SizeIsLength(t);
    SizeIsLength(u);
    EntriesOrdered(t);
    EntriesOrdered(u);
    AsMapMeans(e);
    CutMeans(e, AsMap(e), i);
    hide Means, Cut;
    AsMapMeans(Entries(InOrder(u)));
    OneMeaning(Entries(InOrder(u)), AsMap(Entries(InOrder(u))), AsMap(e) - {key});
  }

  // ---- The ordered map --------------------------------------------------------------------------

  /** The three invariants, a black root, and search order. */
  ghost predicate Legal(t: Shape) {
    Llrb(t) && !IsRed(t) && Sorted(InOrder(t))
  }

  ghost function MapOf(t: Shape): (m: map<int, int>) {
    AsMap(Entries(InOrder(t)))
  }

  lemma Narrow(S: set<Node>, t: Shape)
    requires Stands(Snap(S), t)
    ensures Stands(Snap(Nodes(t)), t) && Nodes(t) <= S
  {
    Frame(Snap(S), Snap(Nodes(t)), t);
  }

  lemma RecolorSame(t: Shape)
    ensures InOrder(Recolor(t, false)) == InOrder(t) && Nodes(Recolor(t, false)) == Nodes(t)
            && !IsRed(Recolor(t, false))
    ensures Llrb(t) ==> Llrb(Recolor(t, false))
  {
  }

  method Blacken(node: Node?, ghost S: set<Node>, ghost t: Shape)
    requires Stands(Snap(S), t) && node == Top(t)
    modifies S
    ensures Stands(Snap(S), Recolor(t, false)) && node == Top(Recolor(t, false))
  {
    if node != null {
      ghost var m := Snap(S);
      Seen(S, t);
      if t.red { RepaintStands(m, t); }
      hide Stands;
      Darken(node, S);
      assert !t.red ==> Snap(S) == m;
      assert t.red ==> Snap(S) == Repainted(m, node);
    }
  }

  method Darken(node: Node, ghost S: set<Node>)
    requires node in S
    modifies S
    ensures var m := old(Snap(S)); Snap(S) == m[node := m[node].(red := false)]
  {
    node.isRed := false;
  }

  lemma PutLegal(t: Shape, i: int, key: int, value: int, x: Node)
    requires Legal(t) && Slot(InOrder(t), key, i)
    ensures 0 <= i <= Size(t)
    ensures var u := Recolor(PutAt(t, i, key, value, x), false);
            && Legal(u) && MapOf(u) == MapOf(t)[key := value]
            && Size(u) == Size(t) + if Present(InOrder(t), key, i) then 0 else 1
  {
    hide InOrder, Sorted, Slot, Present, AsMap;
    PutMeans(t, i, key, value, x);
    var p := PutAt(t, i, key, value, x);
    RecolorSame(p);
    if Present(InOrder(t), key, i) {
      SetAtColours(t, i, value);
    } else {
      InsertKeepsInvariants(t, i, Item(x, key, value));
    }
  }

  lemma RemoveLegal(t: Shape, i: int, key: int, u: Shape)
    requires t.Branch? && Legal(t) && Present(InOrder(t), key, i) && 0 <= i < Size(t)
    requires ReadyAt(Open(t), i) && Erase(u) == Erase(RB.Delete(Open(t), i))
    ensures Legal(Recolor(u, false)) && MapOf(Recolor(u, false)) == MapOf(t) - {key} && Size(u) == Size(t) - 1
  {
    var o := Open(t);
    assert InOrder(o) == InOrder(t);
    hide InOrder, Sorted, Present, AsMap, RB.Delete, ReadyAt;
    DeleteKeepsInvariants(t, i);
    DeleteBalance(o, i);
    RemoveMeans(o, i, key, u);
    SameLlrb(u, RB.Delete(o, i));
    RecolorSame(u);
    hide Llrb, Open;
  }

  method PutRoot(tree: Tree, root: Node?, key: int, value: int, ghost S: set<Node>, ghost t: Shape)
    returns (r: Node, ghost S': set<Node>, ghost u: Shape)
    requires Stands(Snap(S), t) && root == Top(t) && Legal(t)
    modifies tree`size, S
    ensures S <= S' && fresh(S' - S) && Stands(Snap(S'), u) && r == Top(u)
    ensures Legal(u) && MapOf(u) == MapOf(t)[key := value]
    ensures tree.size == old(tree.size) + Size(u) - Size(t)
  {
    ghost var m := Snap(S);
    ghost var i := HasSlot(InOrder(t), key);
    assert Llrb(t) && Sorted(InOrder(t));
    hide Stands, Grew, InOrder, Sorted, Slot, Present, AsMap, PutAt;
    ghost var x;
    r, S', x := PutInto(tree, root, key, value, S, t, i);
    PutLegal(t, i, key, value, x);
    ghost var p := PutAt(t, i, key, value, x);
    GrewStands(m, Snap(S'), t, p, r);
    Blacken(r, S', p);
    u := Recolor(p, false);
  }

  lemma KeyIsThere(t: Shape, key: int) returns (i: int)
    requires Legal(t) && key in MapOf(t)
    ensures Present(InOrder(t), key, i) && 0 <= i < Size(t) && t.Branch?
  {
    var e := Entries(InOrder(t));
    EntriesOrdered(t);
    AsMapMeans(e);
    assert HasKey(e, key);
    i :| 0 <= i < |e| && e[i].key == key;
    SizeIsLength(t);
  }

  method RemoveRoot(tree: Tree, root: Node, key: int, ghost S: set<Node>, ghost t: Shape)
    returns (r: Node?, ghost u: Shape)
    requires Stands(Snap(S), t) && root == Top(t) && Legal(t) && key in MapOf(t)
    modifies tree`size, S
    ensures Stands(Snap(S), u) && r == Top(u)
    ensures Legal(u) && MapOf(u) == MapOf(t) - {key} && Size(u) == Size(t) - 1
    ensures tree.size == old(tree.size) - 1
  {
    ghost var i := KeyIsThere(t, key);
    assert Llrb(t) && Sorted(InOrder(t)) && !t.red;
    hide Stands, Grew, InOrder, Sorted, Present, AsMap, RB.Delete, ReadyAt;
    DeleteKeepsInvariants(t, i);
    ghost var o := Open(t);
    OpenSequence(t);
    OpenRoot(root, S, t);
    hide Open;
    ghost var m := Snap(S);
    ghost var d;
    r, d := Remove(tree, root, key, S, o, i);
    RemoveLegal(t, i, key, d);
    GrewStands(m, Snap(S), o, d, r);
    Blacken(r, S, d);
    u := Recolor(d, false);
    RecolorSize(d);
  }

  lemma RecolorSize(t: Shape)
    ensures Size(Recolor(t, false)) == Size(t)
  {
  }

  lemma OpenSequence(t: Shape)
    requires t.Branch?
    ensures InOrder(Open(t)) == InOrder(t)
  {
  }

  /** The root turns red for a removal unless one of its children already is. */
  method OpenRoot(root: Node, ghost S: set<Node>, ghost t: Shape)
    requires Stands(Snap(S), t) && t.Branch? && root == t.elem.node && !t.red
    modifies S
    ensures Stands(Snap(S), Open(t)) && root == Top(Open(t))
  {
    ghost var m := Snap(S);
    Seen(S, t);
    RepaintStands(m, t);
    hide Stands;
    if !IsRedNode(root.left) && !IsRedNode(root.right) {
      Repaint(root, S);
    }
  }

  // ---- Floor and Ceiling ---------------------------------------------------------------------------

  datatype Option<T> = None | Some(value: T)

  ghost predicate HasItem(s: seq<Item>, e: Entry) {
    exists i :: 0 <= i < |s| && s[i].key == e.key && s[i].value == e.value
  }

  lemma SeqOrder(a: seq<Item>, x: Item, b: seq<Item>, s: seq<Item>)
    requires s == a + [x] + b && Sorted(s)
    ensures Sorted(a) && Sorted(b)
    ensures forall y :: y in a ==> y.key < x.key
    ensures forall y :: y in b ==> y.key > x.key
  {
    assert s[|a|] == x;
    forall i, j | 0 <= i < j < |a| ensures a[i].key < a[j].key {
      assert s[i] == a[i] && s[j] == a[j];
    }
    forall i, j | 0 <= i < j < |b| ensures b[i].key < b[j].key {
      assert s[|a| + 1 + i] == b[i] && s[|a| + 1 + j] == b[j];
    }
    forall y | y in a ensures y.key < x.key {
      var i :| 0 <= i < |a| && a[i] == y;
      assert s[i] == y;
    }
    forall y | y in b ensures y.key > x.key {
      var i :| 0 <= i < |b| && b[i] == y;
      assert s[|a| + 1 + i] == y;
    }
  }

  lemma RootOrder(t: Shape)
    requires t.Branch? && Sorted(InOrder(t))
    ensures Sorted(InOrder(t.left)) && Sorted(InOrder(t.right))
    ensures forall y :: y in InOrder(t.left) ==> y.key < t.elem.key && y in InOrder(t)
    ensures forall y :: y in InOrder(t.right) ==> y.key > t.elem.key && y in InOrder(t)
    ensures t.elem in InOrder(t)
    ensures forall y :: y in InOrder(t) ==> y in InOrder(t.left) || y == t.elem || y in InOrder(t.right)
  {
    var a, b, s := InOrder(t.left), InOrder(t.right), InOrder(t);
    assert s == a + [t.elem] + b;
    hide InOrder, Sorted;
    SeqOrder(a, t.elem, b, s);
  }

  lemma ItemIn(s: seq<Item>, x: Item)
    requires x in s
    ensures HasItem(s, Entry(x.key, x.value))
  {
    var i :| 0 <= i < |s| && s[i] == x;
    assert s[i].key == x.key && s[i].value == x.value;
  }

  /** What is left to search is `u`, and `best` is the greatest key not above `key` seen so far. */
  ghost predicate FloorSoFar(t: Shape, u: Shape, key: int, best: Option<Entry>) {
    && Sorted(InOrder(u))
    && (forall y :: y in InOrder(u) ==> y in InOrder(t) && (best.Some? ==> y.key > best.value.key))
    && (forall y :: y in InOrder(t) ==> y in InOrder(u) || y.key > key || (best.Some? && y.key <= best.value.key))
    && (best.Some? ==> best.value.key <= key && HasItem(InOrder(t), best.value))
  }

  ghost predicate CeilingSoFar(t: Shape, u: Shape, key: int, best: Option<Entry>) {
    && Sorted(InOrder(u))
    && (forall y :: y in InOrder(u) ==> y in InOrder(t) && (best.Some? ==> y.key < best.value.key))
    && (forall y :: y in InOrder(t) ==> y in InOrder(u) || y.key < key || (best.Some? && y.key >= best.value.key))
    && (best.Some? ==> best.value.key >= key && HasItem(InOrder(t), best.value))
  }

  lemma FloorStep(t: Shape, u: Shape, key: int, best: Option<Entry>)
    requires u.Branch? && FloorSoFar(t, u, key, best)
    ensures key < u.elem.key ==> FloorSoFar(t, u.left, key, best)
    ensures key > u.elem.key ==> FloorSoFar(t, u.right, key, Some(Entry(u.elem.key, u.elem.value)))
    ensures key == u.elem.key ==> HasItem(InOrder(t), Entry(u.elem.key, u.elem.value))
  {
    hide InOrder, Sorted, HasItem;
    RootOrder(u);
    ItemIn(InOrder(t), u.elem);
  }

  lemma CeilingStep(t: Shape, u: Shape, key: int, best: Option<Entry>)
    requires u.Branch? && CeilingSoFar(t, u, key, best)
    ensures key > u.elem.key ==> CeilingSoFar(t, u.right, key, best)
    ensures key < u.elem.key ==> CeilingSoFar(t, u.left, key, Some(Entry(u.elem.key, u.elem.value)))
    ensures key == u.elem.key ==> HasItem(InOrder(t), Entry(u.elem.key, u.elem.value))
  {
    hide InOrder, Sorted, HasItem;
    RootOrder(u);
    ItemIn(InOrder(t), u.elem);
  }

  /** The entry with the greatest key not above `key`, if there is one. */
  ghost predicate IsFloor(m: map<int, int>, key: int, r: Option<Entry>) {
    match r
    case None => forall k :: k in m ==> k > key
    case Some(e) => e.key <= key && e.key in m && m[e.key] == e.value && forall k :: k in m && k <= key ==> k <= e.key
  }

  /** The entry with the least key not below `key`, if there is one. */
  ghost predicate IsCeiling(m: map<int, int>, key: int, r: Option<Entry>) {
    match r
    case None => forall k :: k in m ==> k < key
    case Some(e) => e.key >= key && e.key in m && m[e.key] == e.value && forall k :: k in m && k >= key ==> k >= e.key
  }

  lemma ItemsAreMap(t: Shape)
    requires Sorted(InOrder(t))
    ensures forall e :: HasItem(InOrder(t), e) ==> e.key in MapOf(t) && MapOf(t)[e.key] == e.value
    ensures forall k :: k in MapOf(t) ==> exists y :: y in InOrder(t) && y.key == k
  {
    var s, e := InOrder(t), Entries(InOrder(t));
    EntriesOrdered(t);
    AsMapMeans(e);
    hide AsMap, InOrder;
    forall x | HasItem(s, x) ensures x.key in MapOf(t) && MapOf(t)[x.key] == x.value {
      var i :| 0 <= i < |s| && s[i].key == x.key && s[i].value == x.value;
      assert e[i] == x;
    }
    forall k | k in MapOf(t) ensures exists y :: y in s && y.key == k {
      assert HasKey(e, k);
      var i :| 0 <= i < |e| && e[i].key == k;
      assert s[i] in s && s[i].key == k;
    }
  }

  method FloorIn(root: Node?, key: int, ghost S: set<Node>, ghost t: Shape) returns (r: Option<Entry>)
    requires Stands(Snap(S), t) && root == Top(t) && Sorted(InOrder(t))
    ensures IsFloor(MapOf(t), key, r)
  {
    hide Stands;
    ItemsAreMap(t);
    var node := root;
    ghost var u := t;
    r := None;
    while node != null
      invariant Stands(Snap(S), u) && node == Top(u) && FloorSoFar(t, u, key, r)
      decreases u
    {
      Seen(S, u);
      Parts(Snap(S), u);
      FloorStep(t, u, key, r);
      hide FloorSoFar;
      if key == node.key {
        return Some(Entry(node.key, node.value));
      } else if key < node.key {
        node, u := node.left, u.left;
      } else {
        r := Some(Entry(node.key, node.value));
        node, u := node.right, u.right;
      }
    }
  }

  method CeilingIn(root: Node?, key: int, ghost S: set<Node>, ghost t: Shape) returns (r: Option<Entry>)
    requires Stands(Snap(S), t) && root == Top(t) && Sorted(InOrder(t))
    ensures IsCeiling(MapOf(t), key, r)
  {
    hide Stands;
    ItemsAreMap(t);
    var node := root;
    ghost var u := t;
    r := None;
    while node != null
      invariant Stands(Snap(S), u) && node == Top(u) && CeilingSoFar(t, u, key, r)
      decreases u
    {
      Seen(S, u);
      Parts(Snap(S), u);
      CeilingStep(t, u, key, r);
      hide CeilingSoFar;
      if key == node.key {
        return Some(Entry(node.key, node.value));
      } else if key < node.key {
        r := Some(Entry(node.key, node.value));
        node, u := node.left, u.left;
      } else {
        node, u := node.right, u.right;
      }
    }
  }

  class Tree {
    var root: Node?
    var size: int
    ghost var shape: Shape

    ghost predicate Valid()
      reads this, Nodes(shape)
    {
      Stands(Snap(Nodes(shape)), shape) && root == Top(shape) && Legal(shape) && size == Size(shape)
    }

    ghost function Model(): (m: map<int, int>)
      reads this
    {
      MapOf(shape)
    }

    constructor ()
      ensures Valid() && Model() == map[]
    {
      root := null;
      size := 0;
      shape := Leaf;
    }

    method Put(key: int, value: int) returns (v: int)
      requires Valid()
      modifies this, Nodes(shape)
      ensures Valid() && Model() == old(Model())[key := value] && v == value
      ensures fresh(Nodes(shape) - old(Nodes(shape)))
    {
      hide Stands, Legal, MapOf;
      var r; ghost var S, u;
      r, S, u := PutRoot(this, root, key, value, Nodes(shape), shape);
      Narrow(S, u);
      Install(r, u);
      v := value;
    }

    /** Removes a key the map holds. */
    method Remove(key: int)
      requires Valid() && key in Model()
      modifies this, Nodes(shape)
      ensures Valid() && Model() == old(Model()) - {key} && Nodes(shape) <= old(Nodes(shape))
    {
      ghost var i := KeyIsThere(shape, key);
      hide Stands, Legal, MapOf, Present;
      var r; ghost var u;
      ghost var S := Nodes(shape);
      r, u := RemoveRoot(this, root, key, S, shape);
      Narrow(S, u);
      Install(r, u);
    }

    /** The number of keys. */
    method Len() returns (n: int)
      requires Valid()
      ensures n == |Model()|
    {
      SizeIsLength(shape);
      EntriesOrdered(shape);
      AsMapMeans(Entries(InOrder(shape)));
      n := size;
    }

    method Floor(key: int) returns (r: Option<Entry>)
      requires Valid()
      ensures IsFloor(Model(), key, r)
    {
      hide Stands, IsFloor, MapOf;
      r := FloorIn(root, key, Nodes(shape), shape);
    }

    method Ceiling(key: int) returns (r: Option<Entry>)
      requires Valid()
      ensures IsCeiling(Model(), key, r)
    {
      hide Stands, IsCeiling, MapOf;
      r := CeilingIn(root, key, Nodes(shape), shape);
    }

    method Install(r: Node?, ghost u: Shape)
      requires Stands(Snap(Nodes(u)), u)
      modifies this`root, this`shape
      ensures root == r && shape == u && Stands(Snap(Nodes(u)), u)
    {
      hide *;
      root := r;
      shape := u;
    }
  }
}
