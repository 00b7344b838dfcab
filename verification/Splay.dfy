/**
 The splay tree that indexes text and arrays: linked nodes with a cached weight, the total
 length of the values below, and a parent link.

 The specification of a tree is the sequence of its nodes from left to right. For every
 node a ghost layout records the stretch of that sequence its subtree covers. Links and
 weights are then conditions on one node and its neighbours, and a rotation changes the
 stretches of two nodes and leaves the sequence alone.

 A weight may be stale where lengths below it have changed. `Valid(changed)` promises the
 right weight only to the nodes that have no node of `changed` at or below them.
 */
module Splay {

  class Node {
    var left: Node?
    var right: Node?
    var parent: Node?
    var weight: int
    /** The length of the value held here; its owner may change it at any time. */
    var len: nat

    constructor (len: nat)
      ensures this.len == len && weight == len && left == right == parent == null
    {
      this.len := len;
      weight := len;
      left, right, parent := null, null, null;
    }

    function LeftWeight(): (w: int)
      reads this, left
    {
      if left == null then 0 else left.weight
    }

    function RightWeight(): (w: int)
      reads this, right
    {
      if right == null then 0 else right.weight
    }

    predicate HasLinks()
      reads this
    {
      parent != null || left != null || right != null
    }
  }

  // ---- Stores and layouts ----------------------------------------------------------------

  datatype Cell = Cell(left: Node?, right: Node?, parent: Node?, weight: int, len: nat)

  type Store = map<Node, Cell>

  ghost function CellOf(n: Node): (c: Cell)
    reads n
  {
    Cell(n.left, n.right, n.parent, n.weight, n.len)
  }

  ghost function Snap(S: set<Node>): (m: Store)
    reads S
  {
    map n | n in S :: CellOf(n)
  }

  /** A subtree covers positions `lo` to `hi` of the sequence; its root stands at `at`. */
  datatype Span = Span(lo: int, at: int, hi: int)

  datatype Layout = Layout(order: seq<Node>, span: map<Node, Span>)

  ghost predicate Placed(L: Layout) {
    && (forall i :: 0 <= i < |L.order| ==> L.order[i] in L.span && L.span[L.order[i]].at == i)
    && (forall n :: n in L.span ==>
          && 0 <= L.span[n].lo <= L.span[n].at < L.span[n].hi <= |L.order|
          && L.order[L.span[n].at] == n)
  }

  /** `c` is the left child of `n`: it covers what `n` covers to its left. */
  ghost predicate LeftOk(m: Store, L: Layout, n: Node, c: Node?)
    requires n in L.span
  {
    if c == null then L.span[n].lo == L.span[n].at
    else c in L.span && c in m && m[c].parent == n && L.span[c].lo == L.span[n].lo && L.span[c].hi == L.span[n].at
  }

  ghost predicate RightOk(m: Store, L: Layout, n: Node, c: Node?)
    requires n in L.span
  {
    if c == null then L.span[n].at + 1 == L.span[n].hi
    else c in L.span && c in m && m[c].parent == n && L.span[c].lo == L.span[n].at + 1 && L.span[c].hi == L.span[n].hi
  }

  ghost predicate ParentOk(m: Store, L: Layout, root: Node?, n: Node, p: Node?) {
    if p == null then n == root
    else p in L.span && p in m && (m[p].left == n || m[p].right == n) && n != root
  }

  ghost predicate LinkOk(m: Store, L: Layout, root: Node?, n: Node)
    requires n in L.span
  {
    && n in m
    && LeftOk(m, L, n, m[n].left) && RightOk(m, L, n, m[n].right) && ParentOk(m, L, root, n, m[n].parent)
  }

  ghost predicate RootOk(L: Layout, root: Node?) {
    if root == null then L.order == []
    else root in L.span && L.span[root].lo == 0 && L.span[root].hi == |L.order|
  }

  /** The nodes of the layout are linked as it says, with `root` on top. */
  ghost predicate Linked(m: Store, L: Layout, root: Node?) {
    RootOk(L, root) && forall n :: n in L.span ==> LinkOk(m, L, root, n)
  }

  function Prefix(lens: seq<int>, i: int): (w: int)
    requires 0 <= i <= |lens|
  {
    if i == 0 then 0 else Prefix(lens, i - 1) + lens[i - 1]
  }

  ghost predicate Stored(m: Store, L: Layout) {
    forall i :: 0 <= i < |L.order| ==> L.order[i] in m
  }

  ghost function Lens(m: Store, L: Layout): (s: seq<int>)
    requires Stored(m, L)
  {
    seq(|L.order|, i requires 0 <= i < |L.order| => m[L.order[i]].len)
  }

  /** The total length of the first `i` values. */
  ghost function Before(m: Store, L: Layout, i: int): (w: int)
    requires Stored(m, L) && 0 <= i <= |L.order|
  {
    Prefix(Lens(m, L), i)
  }

  ghost predicate Clean(L: Layout, changed: set<Node>, lo: int, hi: int)
    requires 0 <= lo <= hi <= |L.order|
  {
    forall i :: lo <= i < hi ==> L.order[i] !in changed
  }

  ghost predicate WeightOk(m: Store, L: Layout, changed: set<Node>, n: Node)
    requires Placed(L) && Stored(m, L) && n in L.span && n in m
  {
    Clean(L, changed, L.span[n].lo, L.span[n].hi) ==>
      m[n].weight == Before(m, L, L.span[n].hi) - Before(m, L, L.span[n].lo)
  }

  ghost predicate Weighted(m: Store, L: Layout, changed: set<Node>)
    requires Placed(L) && Stored(m, L)
  {
    forall n :: n in L.span && n in m ==> WeightOk(m, L, changed, n)
  }

  ghost predicate Ok(m: Store, L: Layout, root: Node?, changed: set<Node>) {
    Placed(L) && Linked(m, L, root) && Stored(m, L) && Weighted(m, L, changed)
  }

  ghost function WeightAt(m: Store, n: Node?): (w: int) {
    if n == null || n !in m then 0 else m[n].weight
  }

  lemma At(m: Store, L: Layout, root: Node?, n: Node)
    requires Placed(L) && Linked(m, L, root) && n in L.span
    ensures LinkOk(m, L, root, n)
    ensures 0 <= L.span[n].lo <= L.span[n].at < L.span[n].hi <= |L.order| && L.order[L.span[n].at] == n
  {
  }

  lemma WeighedAt(m: Store, L: Layout, changed: set<Node>, n: Node)
    requires Placed(L) && Stored(m, L) && Weighted(m, L, changed) && n in L.span && n in m
    ensures WeightOk(m, L, changed, n)
  {
  }

  /** Where nothing below `n` changed, the weights of its children are the lengths they cover. */
  lemma ChildWeights(m: Store, L: Layout, root: Node?, changed: set<Node>, n: Node)
    requires Ok(m, L, root, changed) && n in L.span && n in m
    requires 0 <= L.span[n].lo <= L.span[n].at < L.span[n].hi <= |L.order|
    ensures Clean(L, changed, L.span[n].lo, L.span[n].at) ==>
              WeightAt(m, m[n].left) == Before(m, L, L.span[n].at) - Before(m, L, L.span[n].lo)
    ensures Clean(L, changed, L.span[n].at + 1, L.span[n].hi) ==>
              WeightAt(m, m[n].right) == Before(m, L, L.span[n].hi) - Before(m, L, L.span[n].at + 1)
    ensures Before(m, L, L.span[n].at + 1) == Before(m, L, L.span[n].at) + m[n].len
  {
    hide Clean, Linked, Placed, Weighted, Stored;
    At(m, L, root, n);
    var left, right := m[n].left, m[n].right;
    if left != null {
      WeighedAt(m, L, changed, left);
    }
    if right != null {
      WeighedAt(m, L, changed, right);
    }
  }

  /** Lengths are all that positions depend on. */
  lemma SameLens(m: Store, m': Store, L: Layout, L': Layout)
    requires Stored(m, L) && L'.order == L.order
    requires forall n :: n in m ==> n in m' && m'[n].len == m[n].len
    ensures Stored(m', L') && Lens(m', L') == Lens(m, L)
  {
  }

  // ---- Rotations on stores ----------------------------------------------------------------

  ghost function Refreshed(m: Store, c: Cell): (r: Cell) {
    c.(weight := WeightAt(m, c.left) + c.len + WeightAt(m, c.right))
  }

  /** The parent above a rotation points to `pivot` where it pointed to `root`. */
  ghost function Rehung(c: Cell, root: Node, pivot: Node): (r: Cell) {
    if c.left == root then c.(left := pivot) else c.(right := pivot)
  }

  ghost predicate RotatedLeft(m: Store, m': Store, pivot: Node)
    requires pivot in m && m[pivot].parent != null && m[pivot].parent in m
  {
    var root := m[pivot].parent;
    var above, inner := m[root].parent, m[pivot].left;
    && m'.Keys == m.Keys
    && m'[root] == Refreshed(m', m[root].(right := inner, parent := pivot))
    && m'[pivot] == Refreshed(m', m[pivot].(left := root, parent := above))
    && forall n :: n in m && n != root && n != pivot ==>
         m'[n] == if n == inner then m[n].(parent := root) else if n == above then Rehung(m[n], root, pivot) else m[n]
  }

  ghost predicate RotatedRight(m: Store, m': Store, pivot: Node)
    requires pivot in m && m[pivot].parent != null && m[pivot].parent in m
  {
    var root := m[pivot].parent;
    var above, inner := m[root].parent, m[pivot].right;
    && m'.Keys == m.Keys
    && m'[root] == Refreshed(m', m[root].(left := inner, parent := pivot))
    && m'[pivot] == Refreshed(m', m[pivot].(right := root, parent := above))
    && forall n :: n in m && n != root && n != pivot ==>
         m'[n] == if n == inner then m[n].(parent := root) else if n == above then Rehung(m[n], root, pivot) else m[n]
  }

  ghost function TurnedLeft(L: Layout, root: Node, pivot: Node): (L': Layout)
    requires root in L.span && pivot in L.span
  {
    var r, p := L.span[root], L.span[pivot];
    L.(span := L.span[root := r.(hi := p.at)][pivot := p.(lo := r.lo)])
  }

  ghost function TurnedRight(L: Layout, root: Node, pivot: Node): (L': Layout)
    requires root in L.span && pivot in L.span
  {
    var r, p := L.span[root], L.span[pivot];
    L.(span := L.span[root := r.(lo := p.at + 1)][pivot := p.(hi := r.hi)])
  }

  ghost predicate LeftSite(m: Store, L: Layout, top: Node?, root: Node, pivot: Node) {
    && Placed(L) && Linked(m, L, top) && root in L.span && pivot in L.span && root in m && pivot in m
    && m[root].right == pivot && m[pivot].parent == root
  }

  ghost predicate Apart(x: Node?, y: Node?) {
    x == null || x != y
  }

  /** No two nodes around `n` coincide. */
  lemma Neighbours(m: Store, L: Layout, top: Node?, n: Node)
    requires Placed(L) && Linked(m, L, top) && n in L.span
    ensures LinkOk(m, L, top, n) && L.span[n].lo <= L.span[n].at < L.span[n].hi
    ensures Apart(n, m[n].left) && Apart(n, m[n].right) && Apart(n, m[n].parent)
    ensures Apart(m[n].left, m[n].right) && Apart(m[n].left, m[n].parent) && Apart(m[n].right, m[n].parent)
    ensures m[n].parent != null ==> m[n].parent in L.span && Within(L.span[n], L.span[m[n].parent])
  {
    var c := m[n];
    assert LinkOk(m, L, top, n);
    if c.parent != null { assert LinkOk(m, L, top, c.parent); }
  }

  /** Covered by the part of `t` on one side of its root. */
  ghost predicate Within(s: Span, t: Span) {
    t.lo <= s.lo && s.hi <= t.hi && (s.hi <= t.at || t.at < s.lo)
  }

  /** What a left rotation does to the links of one node. */
  lemma LeftLinksOf(m: Store, m': Store, root: Node, pivot: Node, n: Node?)
    requires root in m && pivot in m && m[pivot].parent == root && RotatedLeft(m, m', pivot)
    requires n != null ==> n in m
    ensures n != null ==> n in m'
    ensures n == root && n != pivot ==>
      m'[n].left == m[n].left && m'[n].right == m[pivot].left && m'[n].parent == pivot
    ensures n == pivot && n != root ==>
      m'[n].left == root && m'[n].right == m[n].right && m'[n].parent == m[root].parent
    ensures n != null && n != root && n != pivot ==>
      && m'[n].parent == (if n == m[pivot].left then root else m[n].parent)
      && (n == m[root].parent && n != m[pivot].left ==>
          m'[n].left == Rehung(m[n], root, pivot).left && m'[n].right == Rehung(m[n], root, pivot).right)
      && (n != m[root].parent ==> m'[n].left == m[n].left && m'[n].right == m[n].right)
  {
  }

  lemma RotateLeftRoot(m: Store, m': Store, L: Layout, top: Node?, top': Node?, root: Node, pivot: Node)
    requires LeftSite(m, L, top, root, pivot) && RotatedLeft(m, m', pivot)
    requires top' == if m[root].parent == null then pivot else top
    ensures LinkOk(m', TurnedLeft(L, root, pivot), top', root)
  {
    hide Linked, Placed, RotatedLeft;
    Neighbours(m, L, top, root);
    Neighbours(m, L, top, pivot);
    LeftLinksOf(m, m', root, pivot, root);
    LeftLinksOf(m, m', root, pivot, pivot);
    LeftLinksOf(m, m', root, pivot, m[root].left);
    LeftLinksOf(m, m', root, pivot, m[pivot].left);
  }

  lemma RotateLeftPivot(m: Store, m': Store, L: Layout, top: Node?, top': Node?, root: Node, pivot: Node)
    requires LeftSite(m, L, top, root, pivot) && RotatedLeft(m, m', pivot)
    requires top' == if m[root].parent == null then pivot else top
    ensures LinkOk(m', TurnedLeft(L, root, pivot), top', pivot)
  {
    hide Linked, Placed, RotatedLeft;
    Neighbours(m, L, top, root);
    Neighbours(m, L, top, pivot);
    LeftLinksOf(m, m', root, pivot, root);
    LeftLinksOf(m, m', root, pivot, pivot);
    LeftLinksOf(m, m', root, pivot, m[root].parent);
    LeftLinksOf(m, m', root, pivot, m[pivot].right);
  }

  lemma RotateLeftChildren(m: Store, m': Store, L: Layout, top: Node?, root: Node, pivot: Node, n: Node)
    requires LeftSite(m, L, top, root, pivot) && RotatedLeft(m, m', pivot)
    requires n in L.span && n != root && n != pivot
    ensures n in m' && LeftOk(m', TurnedLeft(L, root, pivot), n, m'[n].left)
    ensures RightOk(m', TurnedLeft(L, root, pivot), n, m'[n].right)
  {
    hide Linked, Placed, RotatedLeft;
    Neighbours(m, L, top, root);
    Neighbours(m, L, top, pivot);
    Neighbours(m, L, top, n);
    if m[pivot].left != null { Neighbours(m, L, top, m[pivot].left); }
    LeftLinksOf(m, m', root, pivot, pivot);
    LeftLinksOf(m, m', root, pivot, n);
    LeftLinksOf(m, m', root, pivot, m[n].left);
    LeftLinksOf(m, m', root, pivot, m[n].right);
  }

  lemma RotateLeftParent(m: Store, m': Store, L: Layout, top: Node?, top': Node?, root: Node, pivot: Node, n: Node)
    requires LeftSite(m, L, top, root, pivot) && RotatedLeft(m, m', pivot)
    requires top' == if m[root].parent == null then pivot else top
    requires n in L.span && n != root && n != pivot
    ensures n in m' && ParentOk(m', TurnedLeft(L, root, pivot), top', n, m'[n].parent)
  {
    hide Linked, Placed, RotatedLeft;
    Neighbours(m, L, top, root);
    Neighbours(m, L, top, pivot);
    Neighbours(m, L, top, n);
    LeftLinksOf(m, m', root, pivot, root);
    LeftLinksOf(m, m', root, pivot, pivot);
    LeftLinksOf(m, m', root, pivot, n);
    LeftLinksOf(m, m', root, pivot, m[n].parent);
  }

  lemma TurnedLeftPlaced(L: Layout, root: Node, pivot: Node)
    requires Placed(L) && root in L.span && pivot in L.span
    requires var r, p := L.span[root], L.span[pivot];
             r.lo <= r.at < r.hi && p.lo <= p.at < p.hi && p.lo == r.at + 1 && p.hi == r.hi
    ensures Placed(TurnedLeft(L, root, pivot))
  {
  }

  lemma RotateLeftPlaced(m: Store, L: Layout, top: Node?, top': Node?, root: Node, pivot: Node)
    requires LeftSite(m, L, top, root, pivot)
    requires top' == if m[root].parent == null then pivot else top
    ensures Placed(TurnedLeft(L, root, pivot)) && RootOk(TurnedLeft(L, root, pivot), top')
  {
    hide Placed;
    var r, p := L.span[root], L.span[pivot];
    assert p.lo == r.at + 1 && p.hi == r.hi && RootOk(L, top) && (m[root].parent == null ==> root == top) by {
      At(m, L, top, root);
    }
    assert r.lo <= r.at < r.hi && p.lo <= p.at < p.hi by {
      At(m, L, top, root);
      At(m, L, top, pivot);
    }
    hide Linked;
    TurnedLeftPlaced(L, root, pivot);
  }

  lemma RotateLeftLinks(m: Store, m': Store, L: Layout, top: Node?, top': Node?, root: Node, pivot: Node)
    requires LeftSite(m, L, top, root, pivot) && RotatedLeft(m, m', pivot)
    requires top' == if m[root].parent == null then pivot else top
    ensures Placed(TurnedLeft(L, root, pivot)) && Linked(m', TurnedLeft(L, root, pivot), top')
  {
    var L' := TurnedLeft(L, root, pivot);
    RotateLeftPlaced(m, L, top, top', root, pivot);
    assert forall n :: n in L'.span ==> n in L.span;
    hide Placed, RootOk, LinkOk, RotatedLeft, LeftSite, TurnedLeft;
    forall n | n in L'.span ensures LinkOk(m', L', top', n) {
      if n == root {
        RotateLeftRoot(m, m', L, top, top', root, pivot);
      } else if n == pivot {
        RotateLeftPivot(m, m', L, top, top', root, pivot);
      } else {
        RotateLeftOther(m, m', L, top, top', root, pivot, n);
      }
    }
  }

  lemma RotateLeftOther(m: Store, m': Store, L: Layout, top: Node?, top': Node?, root: Node, pivot: Node, n: Node)
    requires LeftSite(m, L, top, root, pivot) && RotatedLeft(m, m', pivot)
    requires top' == if m[root].parent == null then pivot else top
    requires n in L.span && n != root && n != pivot
    ensures LinkOk(m', TurnedLeft(L, root, pivot), top', n)
  {
    hide LeftSite, RotatedLeft, LeftOk, RightOk, ParentOk;
    RotateLeftChildren(m, m', L, top, root, pivot, n);
    RotateLeftParent(m, m', L, top, top', root, pivot, n);
  }

  lemma RotateLeftNewWeights(m: Store, m': Store, L: Layout, top: Node?, root: Node, pivot: Node)
    requires LeftSite(m, L, top, root, pivot) && RotatedLeft(m, m', pivot)
    ensures root in m' && pivot in m'
    ensures m'[root].weight == WeightAt(m, m[root].left) + m[root].len + WeightAt(m, m[pivot].left)
    ensures m'[pivot].weight == m'[root].weight + m[pivot].len + WeightAt(m, m[pivot].right)
  {
    hide Linked, Placed;
    Neighbours(m, L, top, root);
    Neighbours(m, L, top, pivot);
  }

  lemma RotateLeftPairWeights(m: Store, m': Store, L: Layout, L': Layout, top: Node?, changed: set<Node>, root: Node,
      pivot: Node)
    requires LeftSite(m, L, top, root, pivot) && RotatedLeft(m, m', pivot)
    requires Stored(m, L) && Weighted(m, L, changed)
    requires L' == TurnedLeft(L, root, pivot) && Placed(L') && Stored(m', L') && Lens(m', L') == Lens(m, L)
    ensures root in m' && WeightOk(m', L', changed, root)
    ensures pivot in m' && WeightOk(m', L', changed, pivot)
  {
    hide Linked, Placed, Lens, Weighted, RotatedLeft, Stored, Prefix;
    RotateLeftNewWeights(m, m', L, top, root, pivot);
    At(m, L, top, root);
    At(m, L, top, pivot);
    ChildWeights(m, L, top, changed, root);
    ChildWeights(m, L, top, changed, pivot);
  }

  /** A node that covers what it covered, with the weight it had, is as right as it was. */
  lemma StillWeighed(m: Store, m': Store, L: Layout, L': Layout, changed: set<Node>, n: Node)
    requires Placed(L) && Stored(m, L) && Weighted(m, L, changed) && n in L.span && n in m
    requires Placed(L') && Stored(m', L') && L'.order == L.order && Lens(m', L') == Lens(m, L)
    requires n in L'.span && n in m' && L'.span[n] == L.span[n] && m'[n].weight == m[n].weight
    ensures WeightOk(m', L', changed, n)
  {
    hide Placed, Stored, Lens, Weighted, Prefix;
    WeighedAt(m, L, changed, n);
  }

  lemma RotateLeftKeeps(m: Store, m': Store, root: Node, pivot: Node)
    requires root in m && pivot in m && m[pivot].parent == root && RotatedLeft(m, m', pivot)
    ensures m'.Keys == m.Keys
    ensures forall n :: n in m ==> n in m' && m'[n].len == m[n].len
    ensures forall n :: n in m' && n != root && n != pivot ==> n in m && m'[n].weight == m[n].weight
  {
  }

  lemma RotateLeftWeights(m: Store, m': Store, L: Layout, top: Node?, changed: set<Node>, root: Node, pivot: Node)
    requires LeftSite(m, L, top, root, pivot) && RotatedLeft(m, m', pivot)
    requires Stored(m, L) && Weighted(m, L, changed)
    requires Placed(TurnedLeft(L, root, pivot))
    ensures Stored(m', TurnedLeft(L, root, pivot)) && Weighted(m', TurnedLeft(L, root, pivot), changed)
  {
    hide Linked, Placed, Lens, WeightOk, Stored, RotatedLeft;
    var L' := TurnedLeft(L, root, pivot);
    RotateLeftKeeps(m, m', root, pivot);
    SameLens(m, m', L, L');
    RotateLeftPairWeights(m, m', L, L', top, changed, root, pivot);
    forall n | n in L'.span && n in m' ensures WeightOk(m', L', changed, n) {
      if n != root && n != pivot {
        StillWeighed(m, m', L, L', changed, n);
      }
    }
  }

  ghost predicate RightSite(m: Store, L: Layout, top: Node?, root: Node, pivot: Node) {
    && Placed(L) && Linked(m, L, top) && root in L.span && pivot in L.span && root in m && pivot in m
    && m[root].left == pivot && m[pivot].parent == root
  }

  /** What a right rotation does to the links of one node. */
  lemma RightLinksOf(m: Store, m': Store, root: Node, pivot: Node, n: Node?)
    requires root in m && pivot in m && m[pivot].parent == root && RotatedRight(m, m', pivot)
    requires n != null ==> n in m
    ensures n != null ==> n in m'
    ensures n == root && n != pivot ==>
      m'[n].right == m[n].right && m'[n].left == m[pivot].right && m'[n].parent == pivot
    ensures n == pivot && n != root ==>
      m'[n].right == root && m'[n].left == m[n].left && m'[n].parent == m[root].parent
    ensures n != null && n != root && n != pivot ==>
      && m'[n].parent == (if n == m[pivot].right then root else m[n].parent)
      && (n == m[root].parent && n != m[pivot].right ==>
          m'[n].right == Rehung(m[n], root, pivot).right && m'[n].left == Rehung(m[n], root, pivot).left)
      && (n != m[root].parent ==> m'[n].right == m[n].right && m'[n].left == m[n].left)
  {
  }

  lemma RotateRightRoot(m: Store, m': Store, L: Layout, top: Node?, top': Node?, root: Node, pivot: Node)
    requires RightSite(m, L, top, root, pivot) && RotatedRight(m, m', pivot)
    requires top' == if m[root].parent == null then pivot else top
    ensures LinkOk(m', TurnedRight(L, root, pivot), top', root)
  {
    hide Linked, Placed, RotatedRight;
    Neighbours(m, L, top, root);
    Neighbours(m, L, top, pivot);
    RightLinksOf(m, m', root, pivot, root);
    RightLinksOf(m, m', root, pivot, pivot);
    RightLinksOf(m, m', root, pivot, m[root].right);
    RightLinksOf(m, m', root, pivot, m[pivot].right);
  }

  lemma RotateRightPivot(m: Store, m': Store, L: Layout, top: Node?, top': Node?, root: Node, pivot: Node)
    requires RightSite(m, L, top, root, pivot) && RotatedRight(m, m', pivot)
    requires top' == if m[root].parent == null then pivot else top
    ensures LinkOk(m', TurnedRight(L, root, pivot), top', pivot)
  {
    hide Linked, Placed, RotatedRight;
    Neighbours(m, L, top, root);
    Neighbours(m, L, top, pivot);
    RightLinksOf(m, m', root, pivot, root);
    RightLinksOf(m, m', root, pivot, pivot);
    RightLinksOf(m, m', root, pivot, m[root].parent);
    RightLinksOf(m, m', root, pivot, m[pivot].left);
  }

  lemma RotateRightChildren(m: Store, m': Store, L: Layout, top: Node?, root: Node, pivot: Node, n: Node)
    requires RightSite(m, L, top, root, pivot) && RotatedRight(m, m', pivot)
    requires n in L.span && n != root && n != pivot
    ensures n in m' && RightOk(m', TurnedRight(L, root, pivot), n, m'[n].right)
    ensures LeftOk(m', TurnedRight(L, root, pivot), n, m'[n].left)
  {
    hide Linked, Placed, RotatedRight;
    Neighbours(m, L, top, root);
    Neighbours(m, L, top, pivot);
    Neighbours(m, L, top, n);
    if m[pivot].right != null { Neighbours(m, L, top, m[pivot].right); }
    RightLinksOf(m, m', root, pivot, pivot);
    RightLinksOf(m, m', root, pivot, n);
    RightLinksOf(m, m', root, pivot, m[n].right);
    RightLinksOf(m, m', root, pivot, m[n].left);
  }

  lemma RotateRightParent(m: Store, m': Store, L: Layout, top: Node?, top': Node?, root: Node, pivot: Node, n: Node)
    requires RightSite(m, L, top, root, pivot) && RotatedRight(m, m', pivot)
    requires top' == if m[root].parent == null then pivot else top
    requires n in L.span && n != root && n != pivot
    ensures n in m' && ParentOk(m', TurnedRight(L, root, pivot), top', n, m'[n].parent)
  {
    hide Linked, Placed, RotatedRight;
    Neighbours(m, L, top, root);
    Neighbours(m, L, top, pivot);
    Neighbours(m, L, top, n);
    RightLinksOf(m, m', root, pivot, root);
    RightLinksOf(m, m', root, pivot, pivot);
    RightLinksOf(m, m', root, pivot, n);
    RightLinksOf(m, m', root, pivot, m[n].parent);
  }

  lemma TurnedRightPlaced(L: Layout, root: Node, pivot: Node)
    requires Placed(L) && root in L.span && pivot in L.span
    requires var r, p := L.span[root], L.span[pivot];
             r.lo <= r.at < r.hi && p.lo <= p.at < p.hi && p.lo == r.lo && p.hi == r.at
    ensures Placed(TurnedRight(L, root, pivot))
  {
  }

  lemma RotateRightPlaced(m: Store, L: Layout, top: Node?, top': Node?, root: Node, pivot: Node)
    requires RightSite(m, L, top, root, pivot)
    requires top' == if m[root].parent == null then pivot else top
    ensures Placed(TurnedRight(L, root, pivot)) && RootOk(TurnedRight(L, root, pivot), top')
  {
    hide Placed;
    var r, p := L.span[root], L.span[pivot];
    assert p.lo == r.lo && p.hi == r.at && RootOk(L, top) && (m[root].parent == null ==> root == top) by {
      At(m, L, top, root);
    }
    assert r.lo <= r.at < r.hi && p.lo <= p.at < p.hi by {
      At(m, L, top, root);
      At(m, L, top, pivot);
    }
    hide Linked;
    TurnedRightPlaced(L, root, pivot);
  }

  lemma RotateRightLinks(m: Store, m': Store, L: Layout, top: Node?, top': Node?, root: Node, pivot: Node)
    requires RightSite(m, L, top, root, pivot) && RotatedRight(m, m', pivot)
    requires top' == if m[root].parent == null then pivot else top
    ensures Placed(TurnedRight(L, root, pivot)) && Linked(m', TurnedRight(L, root, pivot), top')
  {
    var L' := TurnedRight(L, root, pivot);
    RotateRightPlaced(m, L, top, top', root, pivot);
    assert forall n :: n in L'.span ==> n in L.span;
    hide Placed, RootOk, LinkOk, RotatedRight, RightSite, TurnedRight;
    forall n | n in L'.span ensures LinkOk(m', L', top', n) {
      if n == root {
        RotateRightRoot(m, m', L, top, top', root, pivot);
      } else if n == pivot {
        RotateRightPivot(m, m', L, top, top', root, pivot);
      } else {
        RotateRightOther(m, m', L, top, top', root, pivot, n);
      }
    }
  }

  lemma RotateRightOther(m: Store, m': Store, L: Layout, top: Node?, top': Node?, root: Node, pivot: Node, n: Node)
    requires RightSite(m, L, top, root, pivot) && RotatedRight(m, m', pivot)
    requires top' == if m[root].parent == null then pivot else top
    requires n in L.span && n != root && n != pivot
    ensures LinkOk(m', TurnedRight(L, root, pivot), top', n)
  {
    hide RightSite, RotatedRight, RightOk, LeftOk, ParentOk;
    RotateRightChildren(m, m', L, top, root, pivot, n);
    RotateRightParent(m, m', L, top, top', root, pivot, n);
  }

  lemma RotateRightNewWeights(m: Store, m': Store, L: Layout, top: Node?, root: Node, pivot: Node)
    requires RightSite(m, L, top, root, pivot) && RotatedRight(m, m', pivot)
    ensures root in m' && pivot in m'
    ensures m'[root].weight == WeightAt(m, m[root].right) + m[root].len + WeightAt(m, m[pivot].right)
    ensures m'[pivot].weight == m'[root].weight + m[pivot].len + WeightAt(m, m[pivot].left)
  {
    hide Linked, Placed;
    Neighbours(m, L, top, root);
    Neighbours(m, L, top, pivot);
  }

  lemma RotateRightPairWeights(m: Store, m': Store, L: Layout, L': Layout, top: Node?, changed: set<Node>, root: Node,
      pivot: Node)
    requires RightSite(m, L, top, root, pivot) && RotatedRight(m, m', pivot)
    requires Stored(m, L) && Weighted(m, L, changed)
    requires L' == TurnedRight(L, root, pivot) && Placed(L') && Stored(m', L') && Lens(m', L') == Lens(m, L)
    ensures root in m' && WeightOk(m', L', changed, root)
    ensures pivot in m' && WeightOk(m', L', changed, pivot)
  {
    hide Linked, Placed, Lens, Weighted, RotatedRight, Stored, Prefix;
    RotateRightNewWeights(m, m', L, top, root, pivot);
    At(m, L, top, root);
    At(m, L, top, pivot);
    ChildWeights(m, L, top, changed, root);
    ChildWeights(m, L, top, changed, pivot);
  }

  lemma RotateRightKeeps(m: Store, m': Store, root: Node, pivot: Node)
    requires root in m && pivot in m && m[pivot].parent == root && RotatedRight(m, m', pivot)
    ensures m'.Keys == m.Keys
    ensures forall n :: n in m ==> n in m' && m'[n].len == m[n].len
    ensures forall n :: n in m' && n != root && n != pivot ==> n in m && m'[n].weight == m[n].weight
  {
  }

  lemma RotateRightWeights(m: Store, m': Store, L: Layout, top: Node?, changed: set<Node>, root: Node, pivot: Node)
    requires RightSite(m, L, top, root, pivot) && RotatedRight(m, m', pivot)
    requires Stored(m, L) && Weighted(m, L, changed)
    requires Placed(TurnedRight(L, root, pivot))
    ensures Stored(m', TurnedRight(L, root, pivot)) && Weighted(m', TurnedRight(L, root, pivot), changed)
  {
    hide Linked, Placed, Lens, WeightOk, Stored, RotatedRight;
    var L' := TurnedRight(L, root, pivot);
    RotateRightKeeps(m, m', root, pivot);
    SameLens(m, m', L, L');
    RotateRightPairWeights(m, m', L, L', top, changed, root, pivot);
    forall n | n in L'.span && n in m' ensures WeightOk(m', L', changed, n) {
      if n != root && n != pivot {
        StillWeighed(m, m', L, L', changed, n);
      }
    }
  }

  lemma RotateLeftOk(m: Store, m': Store, L: Layout, top: Node?, top': Node?, changed: set<Node>, root: Node,
      pivot: Node)
    requires Ok(m, L, top, changed) && LeftSite(m, L, top, root, pivot) && RotatedLeft(m, m', pivot)
    requires top' == if m[root].parent == null then pivot else top
    ensures Ok(m', TurnedLeft(L, root, pivot), top', changed)
  {
    hide Placed, Linked, Weighted, Stored, RotatedLeft, LeftSite;
    RotateLeftLinks(m, m', L, top, top', root, pivot);
    RotateLeftWeights(m, m', L, top, changed, root, pivot);
  }

  lemma RotateRightOk(m: Store, m': Store, L: Layout, top: Node?, top': Node?, changed: set<Node>, root: Node,
      pivot: Node)
    requires Ok(m, L, top, changed) && RightSite(m, L, top, root, pivot) && RotatedRight(m, m', pivot)
    requires top' == if m[root].parent == null then pivot else top
    ensures Ok(m', TurnedRight(L, root, pivot), top', changed)
  {
    hide Placed, Linked, Weighted, Stored, RotatedRight, RightSite;
    RotateRightLinks(m, m', L, top, top', root, pivot);
    RotateRightWeights(m, m', L, top, changed, root, pivot);
  }

  // ---- Stretches are nested --------------------------------------------------------------

  predicate Holds(s: Span, i: int) {
    s.lo <= i < s.hi
  }

  function Width(s: Span): (w: int) {
    s.hi - s.lo
  }

  ghost predicate Shaped(m: Store, L: Layout, top: Node?) {
    Placed(L) && Linked(m, L, top)
  }

  /** From any node that `x` covers, other than `x`, the parent is covered by `x` as well. */
  ghost predicate Closed(m: Store, L: Layout, x: Node)
    requires x in L.span
  {
    forall n :: n in L.span && n in m && n != x && Holds(L.span[x], L.span[n].at) ==> ParentHeld(m, L, x, n)
  }

  ghost predicate ParentHeld(m: Store, L: Layout, x: Node, n: Node)
    requires x in L.span && n in m
  {
    m[n].parent != null && m[n].parent in L.span && Holds(L.span[x], L.span[m[n].parent].at)
  }

  lemma {:induction false} CoveredWithin(m: Store, L: Layout, top: Node?, x: Node, n: Node)
    requires Shaped(m, L, top) && x in L.span && Closed(m, L, x)
    requires n in L.span && n != x && Holds(L.span[x], L.span[n].at)
    ensures Within(L.span[n], L.span[x])
    decreases |L.order| - Width(L.span[n])
  {
    hide Placed, Linked;
    Neighbours(m, L, top, n);
    assert ParentHeld(m, L, x, n);
    var p := m[n].parent;
    Neighbours(m, L, top, p);
    At(m, L, top, n);
    At(m, L, top, p);
    if p != x {
      CoveredWithin(m, L, top, x, p);
    }
  }

  lemma ChildClosed(m: Store, L: Layout, top: Node?, y: Node, x: Node, n: Node)
    requires Shaped(m, L, top) && y in L.span && Closed(m, L, y) && x in L.span && x in m && m[x].parent == y
    requires n in L.span && n in m && n != x && Holds(L.span[x], L.span[n].at)
    ensures ParentHeld(m, L, x, n)
  {
    hide Placed, Linked;
    Neighbours(m, L, top, x);
    Neighbours(m, L, top, y);
    Neighbours(m, L, top, n);
    assert n != y;
    assert ParentHeld(m, L, y, n);
    var p := m[n].parent;
    if p != y {
      CoveredWithin(m, L, top, y, p);
      At(m, L, top, p);
    }
  }

  lemma {:induction false} AllClosed(m: Store, L: Layout, top: Node?, x: Node)
    requires Shaped(m, L, top) && x in L.span
    ensures Closed(m, L, x)
    decreases |L.order| - Width(L.span[x])
  {
    Neighbours(m, L, top, x);
    At(m, L, top, x);
    if m[x].parent == null {
      forall n | n in L.span && n in m && n != x && Holds(L.span[x], L.span[n].at) ensures ParentHeld(m, L, x, n) {
        hide Placed, Linked;
        At(m, L, top, n);
        At(m, L, top, m[n].parent);
      }
    } else {
      var y := m[x].parent;
      hide Placed, Linked;
      At(m, L, top, y);
      AllClosed(m, L, top, y);
      forall n | n in L.span && n in m && n != x && Holds(L.span[x], L.span[n].at) ensures ParentHeld(m, L, x, n) {
        ChildClosed(m, L, top, y, x, n);
      }
    }
  }

  /** A node covered by another lies wholly on one side of it, and so does its parent unless it is the other. */
  lemma Laminar(m: Store, L: Layout, top: Node?, x: Node, n: Node)
    requires Shaped(m, L, top) && x in L.span && n in L.span && n != x && Holds(L.span[x], L.span[n].at)
    ensures Within(L.span[n], L.span[x])
    ensures n in m && ParentHeld(m, L, x, n)
  {
    hide Placed, Linked;
    At(m, L, top, n);
    AllClosed(m, L, top, x);
    CoveredWithin(m, L, top, x, n);
  }

  // ---- Weights brought up to date ----------------------------------------------------------

  /** The two stores differ in weights only. */
  ghost predicate SameLinks(m: Store, m': Store) {
    m'.Keys == m.Keys && forall n :: n in m && n in m' ==> m'[n] == m[n].(weight := m'[n].weight)
  }

  lemma SameLinksShaped(m: Store, m': Store, L: Layout, top: Node?)
    requires Shaped(m, L, top) && Stored(m, L) && SameLinks(m, m')
    ensures Shaped(m', L, top) && Stored(m', L) && Lens(m', L) == Lens(m, L)
  {
    hide Placed;
    forall n | n in L.span ensures LinkOk(m', L, top, n) {
      assert LinkOk(m, L, top, n);
    }
    SameLens(m, m', L, L);
  }

  /** Promising less: more nodes may have changed. */
  lemma Weaken(m: Store, L: Layout, top: Node?, changed: set<Node>, more: set<Node>)
    requires Ok(m, L, top, changed) && changed <= more
    ensures Ok(m, L, top, more)
  {
    hide Linked, Placed, Stored, Before;
    forall n | n in L.span && n in m ensures WeightOk(m, L, more, n) {
      WeighedAt(m, L, changed, n);
    }
  }

  ghost function Including(changed: set<Node>, n: Node?): (r: set<Node>) {
    if n == null then changed else changed + {n}
  }

  lemma OnePlace(L: Layout, n: Node)
    requires Placed(L) && n in L.span
    ensures forall i :: 0 <= i < |L.order| && L.order[i] == n ==> i == L.span[n].at
  {
  }

  lemma RefreshedLinks(m: Store, m': Store, c: Node)
    requires c in m && m' == m[c := Refreshed(m, m[c])]
    ensures SameLinks(m, m')
  {
  }

  /** `c` has its weight recomputed; what may still be wrong is above it. */
  lemma Climb(m: Store, m': Store, L: Layout, top: Node?, changed: set<Node>, c: Node)
    requires Ok(m, L, top, changed + {c}) && c in L.span && c in m && m' == m[c := Refreshed(m, m[c])]
    ensures Ok(m', L, top, Including(changed, m[c].parent))
  {
    var Z := Including(changed, m[c].parent);
    hide Linked, Placed, Stored, Lens, WeightOk, SameLinks;
    RefreshedLinks(m, m', c);
    SameLinksShaped(m, m', L, top);
    forall n | n in L.span && n in m' ensures WeightOk(m', L, Z, n) {
      ClimbAt(m, m', L, top, changed, c, n);
    }
  }

  lemma ClimbAt(m: Store, m': Store, L: Layout, top: Node?, changed: set<Node>, c: Node, n: Node)
    requires Ok(m, L, top, changed + {c}) && c in L.span && c in m && m' == m[c := Refreshed(m, m[c])]
    requires Stored(m', L) && Lens(m', L) == Lens(m, L) && n in L.span && n in m'
    ensures WeightOk(m', L, Including(changed, m[c].parent), n)
  {
    hide Linked, Placed, Weighted, Stored, Lens, Prefix;
    At(m, L, top, c);
    At(m, L, top, n);
    OnePlace(L, c);
    if n == c {
      ChildWeights(m, L, top, changed + {c}, c);
      if m[c].left != null { At(m, L, top, m[c].left); }
    } else {
      WeighedAt(m, L, changed + {c}, n);
      if Holds(L.span[n], L.span[c].at) {
        Laminar(m, L, top, n, c);
        At(m, L, top, m[c].parent);
      }
    }
  }

  /** Every weight is the sum of the value's own length and the weights of the children. */
  ghost predicate AddUp(m: Store, L: Layout) {
    forall n :: n in L.span && n in m ==> m[n].weight == WeightAt(m, m[n].left) + m[n].len + WeightAt(m, m[n].right)
  }

  lemma {:induction false} AddUpAt(m: Store, L: Layout, top: Node?, n: Node)
    requires Shaped(m, L, top) && Stored(m, L) && AddUp(m, L) && n in L.span
    ensures n in m && WeightOk(m, L, {}, n)
    decreases Width(L.span[n])
  {
    hide Placed, Linked, Stored;
    At(m, L, top, n);
    assert Before(m, L, L.span[n].at + 1) == Before(m, L, L.span[n].at) + m[n].len;
    hide Lens, Prefix;
    if m[n].left != null { AddUpAt(m, L, top, m[n].left); }
    if m[n].right != null { AddUpAt(m, L, top, m[n].right); }
  }

  /** The equation at each node says the same as: each weight is the total length its subtree covers. */
  lemma WeightsAddUp(m: Store, L: Layout, top: Node?)
    requires Shaped(m, L, top) && Stored(m, L)
    ensures Ok(m, L, top, {}) <==> AddUp(m, L)
  {
    hide Placed, Linked, Stored;
    if AddUp(m, L) {
      hide WeightOk, AddUp;
      forall n | n in L.span && n in m ensures WeightOk(m, L, {}, n) {
        AddUpAt(m, L, top, n);
      }
    }
    if Ok(m, L, top, {}) {
      forall n | n in L.span && n in m
        ensures m[n].weight == WeightAt(m, m[n].left) + m[n].len + WeightAt(m, m[n].right)
      {
        hide Weighted, Lens, Prefix;
        At(m, L, top, n);
        ChildWeights(m, L, top, {}, n);
        WeighedAt(m, L, {}, n);
      }
    }
  }

  // ---- Cutting a range off -----------------------------------------------------------------

  /** `m` after every node standing in `lo..hi` had its weight set to its own length. */
  ghost function Reset(m: Store, L: Layout, lo: int, hi: int): (m': Store) {
    map n | n in m :: if n in L.span && lo <= L.span[n].at < hi then m[n].(weight := m[n].len) else m[n]
  }

  lemma ResetLinks(m: Store, L: Layout, lo: int, hi: int)
    ensures SameLinks(m, Reset(m, L, lo, hi))
  {
  }

  lemma ResetAround(m: Store, L: Layout, n: Node)
    requires Placed(L) && n in L.span && n in m && L.span[n].lo <= L.span[n].at < L.span[n].hi
    ensures var s := L.span[n];
            var m2 := Reset(Reset(m, L, s.lo, s.at), L, s.at + 1, s.hi);
            n in m2 && m2[n := m2[n].(weight := m2[n].len)] == Reset(m, L, s.lo, s.hi)
  {
    var s := L.span[n];
    var m2 := Reset(Reset(m, L, s.lo, s.at), L, s.at + 1, s.hi);
    var m3 := m2[n := m2[n].(weight := m2[n].len)];
    forall x | x in m && x in L.span && x != n ensures L.span[x].at != s.at {
      assert L.order[L.span[x].at] == x && L.order[s.at] == n;
    }
    hide Placed;
    assert m3.Keys == m.Keys == Reset(m, L, s.lo, s.hi).Keys;
  }

  lemma {:induction false} ZeroSum(lens: seq<int>, a: int, b: int)
    requires 0 <= a <= b <= |lens| && forall i :: a <= i < b ==> lens[i] == 0
    ensures Prefix(lens, b) == Prefix(lens, a)
    decreases b - a
  {
    if a < b {
      ZeroSum(lens, a, b - 1);
    }
  }

  /** What covers a node below `x` without standing below `x` covers `x`. */
  lemma {:induction false} Escapes(m: Store, L: Layout, top: Node?, x: Node, n: Node, y: Node)
    requires Shaped(m, L, top) && x in L.span && n in L.span && y in L.span
    requires Holds(L.span[x], L.span[n].at) && Holds(L.span[y], L.span[n].at) && !Holds(L.span[x], L.span[y].at)
    ensures Holds(L.span[y], L.span[x].at)
    decreases |L.order| - Width(L.span[n])
  {
    hide Placed, Linked;
    At(m, L, top, n);
    if n != x {
      Laminar(m, L, top, x, n);
      Laminar(m, L, top, y, n);
      var p := m[n].parent;
      Neighbours(m, L, top, n);
      At(m, L, top, p);
      Escapes(m, L, top, x, p, y);
    }
  }

  /** `changed` is what stands below `x` on its right, and all of it has length zero. */
  ghost predicate Emptied(m: Store, L: Layout, x: Node, changed: set<Node>)
    requires x in L.span
  {
    forall n :: n in L.span && n in m ==>
      && (n in changed <==> L.span[x].at < L.span[n].at < L.span[x].hi)
      && (n in changed ==> m[n].len == 0)
  }

  lemma CutAt(m: Store, L: Layout, top: Node?, changed: set<Node>, x: Node, n: Node)
    requires Ok(m, L, top, changed) && x in L.span && Emptied(m, L, x, changed) && n in L.span && n in m
    requires var m' := Reset(m, L, L.span[x].at + 1, L.span[x].hi);
             Stored(m', L) && Lens(m', L) == Lens(m, L) && n in m'
    ensures WeightOk(Reset(m, L, L.span[x].at + 1, L.span[x].hi), L, {x}, n)
  {
    hide Linked, Placed, Weighted, Stored;
    At(m, L, top, n);
    At(m, L, top, x);
    var s := L.span[n];
    if n in changed {
      Laminar(m, L, top, x, n);
      RangeEmpty(m, L, top, changed, x, s.lo, s.hi);
    } else if !Holds(s, L.span[x].at) {
      WeighedAt(m, L, changed, n);
      forall i | s.lo <= i < s.hi ensures L.order[i] !in changed {
        OutOfRange(m, L, top, changed, x, n, i);
      }
    } else {
      assert !Clean(L, {x}, s.lo, s.hi);
    }
  }

  lemma RangeEmpty(m: Store, L: Layout, top: Node?, changed: set<Node>, x: Node, lo: int, hi: int)
    requires Ok(m, L, top, changed) && x in L.span && Emptied(m, L, x, changed)
    requires 0 <= L.span[x].at < lo <= hi <= L.span[x].hi <= |L.order|
    ensures Before(m, L, hi) == Before(m, L, lo)
  {
    hide Linked, Weighted;
    forall i | lo <= i < hi ensures Lens(m, L)[i] == 0 {
      assert L.order[i] in L.span && L.order[i] in m;
    }
    ZeroSum(Lens(m, L), lo, hi);
  }

  lemma OutOfRange(m: Store, L: Layout, top: Node?, changed: set<Node>, x: Node, n: Node, i: int)
    requires Ok(m, L, top, changed) && x in L.span && Emptied(m, L, x, changed) && n in L.span && n in m
    requires n !in changed && !Holds(L.span[n], L.span[x].at) && L.span[n].lo <= i < L.span[n].hi
    requires 0 <= i < |L.order|
    ensures L.order[i] !in changed
  {
    var y := L.order[i];
    assert y in L.span && L.span[y].at == i && y in m;
    hide Linked, Placed, Weighted, Stored;
    At(m, L, top, x);
    At(m, L, top, n);
    if y in changed {
      if Holds(L.span[x], L.span[n].at) {
        Laminar(m, L, top, x, n);
      } else {
        Escapes(m, L, top, x, y, n);
      }
    }
  }

  /** After the reset only the weights from `x` upwards may be wrong. */
  lemma CutOff(m: Store, L: Layout, top: Node?, changed: set<Node>, x: Node)
    requires Ok(m, L, top, changed) && x in L.span && Emptied(m, L, x, changed)
    ensures Ok(Reset(m, L, L.span[x].at + 1, L.span[x].hi), L, top, {x})
  {
    var m' := Reset(m, L, L.span[x].at + 1, L.span[x].hi);
    hide Linked, Placed, Stored, WeightOk, Lens, SameLinks;
    ResetLinks(m, L, L.span[x].at + 1, L.span[x].hi);
    SameLinksShaped(m, m', L, top);
    hide Reset;
    forall n | n in L.span && n in m' ensures WeightOk(m', L, {x}, n) {
      assert n in m by { At(m, L, top, n); }
      CutAt(m, L, top, changed, x, n);
    }
  }

  lemma ResetNothing(m: Store, L: Layout, lo: int)
    ensures Reset(m, L, lo, lo) == m
  {
  }

  lemma ResetShaped(m: Store, L: Layout, top: Node?, lo: int, hi: int)
    requires Shaped(m, L, top) && Stored(m, L)
    ensures Shaped(Reset(m, L, lo, hi), L, top) && Stored(Reset(m, L, lo, hi), L)
  {
    hide Shaped, Stored, SameLinks, Reset;
    ResetLinks(m, L, lo, hi);
    SameLinksShaped(m, Reset(m, L, lo, hi), L, top);
  }

  /** `changed` is what stands strictly between `left` and `right`, or after `left`, and has length zero. */
  ghost predicate Range(m: Store, L: Layout, left: Node, right: Node?, changed: set<Node>) {
    && left in L.span && (right != null ==> right in L.span && L.span[left].at < L.span[right].at)
    && forall n :: n in L.span && n in m ==>
         && (n in changed <==> L.span[left].at < L.span[n].at && (right == null || L.span[n].at < L.span[right].at))
         && (n in changed ==> m[n].len == 0)
  }

  lemma RangeKept(m: Store, m': Store, L: Layout, L': Layout, left: Node, right: Node?, changed: set<Node>)
    requires Range(m, L, left, right, changed) && Placed(L) && Placed(L')
    requires L'.order == L.order && L'.span.Keys == L.span.Keys && m'.Keys == m.Keys
    requires forall n :: n in m && n in m' ==> m'[n].len == m[n].len
    ensures Range(m', L', left, right, changed)
  {
    SamePlaces(L, L');
    hide Placed;
  }

  lemma RangeBelow(m: Store, L: Layout, left: Node, right: Node?, changed: set<Node>)
    requires Range(m, L, left, right, changed) && Placed(L)
    requires L.span[left].hi == if right == null then |L.order| else L.span[right].at
    ensures Emptied(m, L, left, changed)
  {
    hide Linked;
  }

  // ---- Taking a tree apart at its root, and joining two under a root ---------------------------

  function Shift(s: Span, d: int): (r: Span) {
    Span(s.lo + d, s.at + d, s.hi + d)
  }

  ghost function LeftPart(L: Layout, i: int): (r: Layout)
    requires 0 <= i <= |L.order|
  {
    Layout(L.order[..i], map n | n in L.span && L.span[n].at < i :: L.span[n])
  }

  ghost function RightPart(L: Layout, i: int): (r: Layout)
    requires 0 <= i < |L.order|
  {
    Layout(L.order[i + 1..], map n | n in L.span && L.span[n].at > i :: Shift(L.span[n], -(i + 1)))
  }

  ghost function Joined(A: Layout, x: Node, B: Layout): (r: Layout) {
    Layout(A.order + [x] + B.order,
           map n | n in A.span.Keys + {x} + B.span.Keys ::
             if n == x then Span(0, |A.order|, |A.order| + 1 + |B.order|)
             else if n in A.span then A.span[n]
             else Shift(B.span[n], |A.order| + 1))
  }

  /** A subtree's root, cut from its parent, is the only node of it that changed. */
  ghost predicate Detached(m: Store, m': Store, L: Layout, top: Node?, parent: Node?) {
    forall n :: n in L.span && n in m ==> n in m' && m'[n] == if n == top then m[n].(parent := parent) else m[n]
  }

  lemma LeftPartPlaced(L: Layout, i: int)
    requires Placed(L) && 0 <= i < |L.order|
    requires forall n :: n in L.span && L.span[n].at < i ==> L.span[n].hi <= i
    ensures Placed(LeftPart(L, i))
  {
  }

  lemma RightPartPlaced(L: Layout, i: int)
    requires Placed(L) && 0 <= i < |L.order|
    requires forall n :: n in L.span && L.span[n].at > i ==> L.span[n].lo > i
    ensures Placed(RightPart(L, i))
  {
  }

  lemma JoinedPlaced(A: Layout, x: Node, B: Layout)
    requires Placed(A) && Placed(B) && A.span.Keys !! B.span.Keys && x !in A.span && x !in B.span
    ensures Placed(Joined(A, x, B))
  {
    var J := Joined(A, x, B);
    forall i | 0 <= i < |J.order| ensures J.order[i] in J.span && J.span[J.order[i]].at == i {
      if i < |A.order| {
        assert J.order[i] == A.order[i];
      } else if i > |A.order| {
        assert J.order[i] == B.order[i - |A.order| - 1];
      }
    }
    forall n | n in J.span
      ensures 0 <= J.span[n].lo <= J.span[n].at < J.span[n].hi <= |J.order| && J.order[J.span[n].at] == n
    {
    }
  }

  /** Below the root a node lies wholly on one side of it. */
  lemma RootSplits(m: Store, L: Layout, x: Node)
    requires Shaped(m, L, x) && x in L.span
    ensures 0 <= L.span[x].at < |L.order|
    ensures forall n :: n in L.span && L.span[n].at < L.span[x].at ==> L.span[n].hi <= L.span[x].at
    ensures forall n :: n in L.span && L.span[n].at > L.span[x].at ==> L.span[n].lo > L.span[x].at
    ensures forall n :: n in L.span && L.span[n].at == L.span[x].at ==> n == x
  {
    hide Placed, Linked;
    At(m, L, x, x);
    RootThere(m, L, x, x);
    forall n | n in L.span && n != x
      ensures Within(L.span[n], L.span[x]) && L.span[n].lo <= L.span[n].at < L.span[n].hi
    {
      At(m, L, x, n);
      Laminar(m, L, x, x, n);
    }
  }

  /** What the left part of the tree under `x` knows of a node, and what became of it. */
  lemma InLeftPart(m: Store, m': Store, L: Layout, x: Node, c: Node?)
    requires x in L.span && x in m && 0 <= L.span[x].at < |L.order|
             && Detached(m, m', LeftPart(L, L.span[x].at), m[x].left, null)
    requires c != null && c in L.span && c in m && L.span[c].at < L.span[x].at
    ensures var P := LeftPart(L, L.span[x].at);
            && c in P.span && P.span[c] == L.span[c] && c in m'
            && m'[c] == if c == m[x].left then m[c].(parent := null) else m[c]
  {
  }

  lemma LeftPartLinks(m: Store, m': Store, L: Layout, x: Node, n: Node)
    requires Shaped(m, L, x) && x in L.span && x in m && 0 <= L.span[x].at < |L.order|
    requires Detached(m, m', LeftPart(L, L.span[x].at), m[x].left, null)
    requires n in L.span && L.span[n].at < L.span[x].at
    ensures n in LeftPart(L, L.span[x].at).span && LinkOk(m', LeftPart(L, L.span[x].at), m[x].left, n)
  {
    hide Placed, Linked, Detached, LeftPart;
    Neighbours(m, L, x, x);
    RootThere(m, L, x, x);
    At(m, L, x, n);
    Laminar(m, L, x, x, n);
    Neighbours(m, L, x, n);
    InLeftPart(m, m', L, x, n);
    if m[n].left != null {
      At(m, L, x, m[n].left);
      InLeftPart(m, m', L, x, m[n].left);
    }
    if m[n].right != null {
      At(m, L, x, m[n].right);
      InLeftPart(m, m', L, x, m[n].right);
    }
    if n != m[x].left {
      Laminar(m, L, x, x, m[n].parent);
      At(m, L, x, m[n].parent);
      InLeftPart(m, m', L, x, m[n].parent);
    }
  }

  /** What the right part of the tree under `x` knows of a node, and what became of it. */
  lemma InRightPart(m: Store, m': Store, L: Layout, x: Node, c: Node?)
    requires x in L.span && x in m && 0 <= L.span[x].at < |L.order|
             && Detached(m, m', RightPart(L, L.span[x].at), m[x].right, null)
    requires c != null && c in L.span && c in m && L.span[c].at > L.span[x].at
    ensures var P := RightPart(L, L.span[x].at);
            && c in P.span && P.span[c] == Shift(L.span[c], -(L.span[x].at + 1)) && c in m'
            && m'[c] == if c == m[x].right then m[c].(parent := null) else m[c]
  {
  }

  lemma RightPartLinks(m: Store, m': Store, L: Layout, x: Node, n: Node)
    requires Shaped(m, L, x) && x in L.span && x in m && 0 <= L.span[x].at < |L.order|
    requires Detached(m, m', RightPart(L, L.span[x].at), m[x].right, null)
    requires n in L.span && L.span[n].at > L.span[x].at
    ensures n in RightPart(L, L.span[x].at).span && LinkOk(m', RightPart(L, L.span[x].at), m[x].right, n)
  {
    hide Placed, Linked, Detached, RightPart;
    Neighbours(m, L, x, x);
    RootThere(m, L, x, x);
    At(m, L, x, n);
    Laminar(m, L, x, x, n);
    Neighbours(m, L, x, n);
    InRightPart(m, m', L, x, n);
    if m[n].left != null {
      At(m, L, x, m[n].left);
      InRightPart(m, m', L, x, m[n].left);
    }
    if m[n].right != null {
      At(m, L, x, m[n].right);
      InRightPart(m, m', L, x, m[n].right);
    }
    if n != m[x].right {
      Laminar(m, L, x, x, m[n].parent);
      At(m, L, x, m[n].parent);
      InRightPart(m, m', L, x, m[n].parent);
    }
  }

  lemma {:induction false} PrefixTake(lens: seq<int>, i: int, j: int)
    requires 0 <= j <= i <= |lens|
    ensures Prefix(lens[..i], j) == Prefix(lens, j)
    decreases j
  {
    if j > 0 {
      PrefixTake(lens, i, j - 1);
    }
  }

  lemma {:induction false} PrefixDrop(lens: seq<int>, i: int, j: int)
    requires 0 <= i && 0 <= j && i + j <= |lens|
    ensures Prefix(lens[i..], j) == Prefix(lens, i + j) - Prefix(lens, i)
    decreases j
  {
    if j > 0 {
      PrefixDrop(lens, i, j - 1);
    }
  }

  lemma PlacedAt(L: Layout, n: Node)
    requires Placed(L) && n in L.span
    ensures 0 <= L.span[n].lo <= L.span[n].at < L.span[n].hi <= |L.order| && L.order[L.span[n].at] == n
  {
  }

  lemma LensSize(m: Store, L: Layout)
    requires Stored(m, L)
    ensures |Lens(m, L)| == |L.order|
  {
  }

  lemma PartSums(lens: seq<int>, d: int, size: int, i: int)
    requires 0 <= d && 0 <= i <= size && d + size <= |lens|
    ensures Prefix(lens[d..][..size], i) == Prefix(lens, d + i) - Prefix(lens, d)
  {
    PrefixTake(lens[d..], size, i);
    PrefixDrop(lens, d, i);
  }

  lemma PartClean(L: Layout, P: Layout, changed: set<Node>, d: int, lo: int, hi: int)
    requires 0 <= d && d + |P.order| <= |L.order| && P.order == L.order[d..][..|P.order|] && 0 <= lo <= hi <= |P.order|
    ensures Clean(L, changed, lo + d, hi + d) <==> Clean(P, changed, lo, hi)
  {
    assert forall i :: lo <= i < hi ==> P.order[i] == L.order[i + d];
    assert forall i :: lo + d <= i < hi + d ==> L.order[i] == P.order[i - d];
  }

  /** A part of the sequence, its lengths a part of the lengths, keeps the weights right. */
  lemma PartWeighed(m: Store, m': Store, L: Layout, P: Layout, changed: set<Node>, d: int, n: Node)
    requires Placed(L) && Stored(m, L) && Placed(P) && Stored(m', P)
    requires n in L.span && n in m && n in P.span && n in m' && m'[n].weight == m[n].weight
    requires 0 <= d && d + |P.order| <= |L.order| && L.span[n] == Shift(P.span[n], d)
    requires P.order == L.order[d..][..|P.order|] && Lens(m', P) == Lens(m, L)[d..][..|P.order|]
    ensures WeightOk(m, L, changed, n) <==> WeightOk(m', P, changed, n)
  {
    hide Placed, Stored, Lens, Clean, Prefix;
    var s := P.span[n];
    PlacedAt(P, n);
    LensSize(m, L);
    assert L.span[n].lo == d + s.lo == s.lo + d && L.span[n].hi == d + s.hi == s.hi + d;
    PartSums(Lens(m, L), d, |P.order|, s.lo);
    PartSums(Lens(m, L), d, |P.order|, s.hi);
    PartClean(L, P, changed, d, s.lo, s.hi);
  }

  lemma LeftPartLens(m: Store, m': Store, L: Layout, x: Node)
    requires Placed(L) && Stored(m, L) && x in L.span && x in m && 0 <= L.span[x].at < |L.order|
    requires Detached(m, m', LeftPart(L, L.span[x].at), m[x].left, null)
    ensures Stored(m', LeftPart(L, L.span[x].at)) && LeftPart(L, L.span[x].at).order == L.order[0..][..L.span[x].at]
    ensures Lens(m', LeftPart(L, L.span[x].at)) == Lens(m, L)[0..][..L.span[x].at]
  {
    var P := LeftPart(L, L.span[x].at);
    forall j | 0 <= j < |P.order| ensures P.order[j] in m' && m'[P.order[j]].len == m[P.order[j]].len {
      InLeftPart(m, m', L, x, P.order[j]);
    }
  }

  lemma LeftPartShaped(m: Store, m': Store, L: Layout, x: Node)
    requires Shaped(m, L, x) && x in L.span && x in m && 0 <= L.span[x].at < |L.order|
    requires Detached(m, m', LeftPart(L, L.span[x].at), m[x].left, null)
    ensures Shaped(m', LeftPart(L, L.span[x].at), m[x].left)
  {
    var P := LeftPart(L, L.span[x].at);
    assert Placed(P) && RootOk(P, m[x].left) by {
      hide Placed, Linked;
      RootSplits(m, L, x);
      LeftPartPlaced(L, L.span[x].at);
      At(m, L, x, x);
      RootThere(m, L, x, x);
    }
    assert forall n :: n in P.span ==> n in L.span && L.span[n].at < L.span[x].at;
    hide Placed, LinkOk, LeftPart, RootOk, Detached;
    forall n | n in P.span ensures LinkOk(m', P, m[x].left, n) {
      LeftPartLinks(m, m', L, x, n);
    }
  }

  lemma LeftPartOk(m: Store, m': Store, L: Layout, x: Node, changed: set<Node>)
    requires Ok(m, L, x, changed) && x in L.span && x in m && 0 <= L.span[x].at < |L.order|
    requires Detached(m, m', LeftPart(L, L.span[x].at), m[x].left, null)
    ensures Ok(m', LeftPart(L, L.span[x].at), m[x].left, changed)
  {
    var P := LeftPart(L, L.span[x].at);
    assert forall n :: n in P.span ==>
      n in L.span && L.span[n].at < L.span[x].at && L.span[n] == Shift(P.span[n], 0) && |P.order| == L.span[x].at;
    hide Placed, Linked, Stored, Lens, WeightOk, LeftPart, Detached;
    LeftPartShaped(m, m', L, x);
    LeftPartLens(m, m', L, x);
    forall n | n in P.span && n in m' ensures WeightOk(m', P, changed, n) {
      At(m, L, x, n);
      WeighedAt(m, L, changed, n);
      InLeftPart(m, m', L, x, n);
      PartWeighed(m, m', L, P, changed, 0, n);
    }
  }

  lemma RightPartLens(m: Store, m': Store, L: Layout, x: Node)
    requires Placed(L) && Stored(m, L) && x in L.span && x in m && 0 <= L.span[x].at < |L.order|
    requires Detached(m, m', RightPart(L, L.span[x].at), m[x].right, null)
    ensures Stored(m', RightPart(L, L.span[x].at))
            && RightPart(L, L.span[x].at).order == L.order[L.span[x].at + 1..][..|L.order| - L.span[x].at - 1]
    ensures Lens(m', RightPart(L, L.span[x].at)) == Lens(m, L)[L.span[x].at + 1..][..|L.order| - L.span[x].at - 1]
  {
    var P := RightPart(L, L.span[x].at);
    forall j | 0 <= j < |P.order| ensures P.order[j] in m' && m'[P.order[j]].len == m[P.order[j]].len {
      InRightPart(m, m', L, x, P.order[j]);
    }
  }

  lemma RightPartShaped(m: Store, m': Store, L: Layout, x: Node)
    requires Shaped(m, L, x) && x in L.span && x in m && 0 <= L.span[x].at < |L.order|
    requires Detached(m, m', RightPart(L, L.span[x].at), m[x].right, null)
    ensures Shaped(m', RightPart(L, L.span[x].at), m[x].right)
  {
    var P := RightPart(L, L.span[x].at);
    assert Placed(P) && RootOk(P, m[x].right) by {
      hide Placed, Linked;
      RootSplits(m, L, x);
      RightPartPlaced(L, L.span[x].at);
      At(m, L, x, x);
      RootThere(m, L, x, x);
    }
    assert forall n :: n in P.span ==> n in L.span && L.span[n].at > L.span[x].at;
    hide Placed, LinkOk, RightPart, RootOk, Detached;
    forall n | n in P.span ensures LinkOk(m', P, m[x].right, n) {
      RightPartLinks(m, m', L, x, n);
    }
  }

  lemma RightPartSpans(L: Layout, i: int)
    requires 0 <= i < |L.order|
    ensures |RightPart(L, i).order| == |L.order| - i - 1
    ensures forall n :: n in RightPart(L, i).span ==>
              n in L.span && L.span[n].at > i && L.span[n] == Shift(RightPart(L, i).span[n], i + 1)
  {
  }

  lemma RightPartOk(m: Store, m': Store, L: Layout, x: Node, changed: set<Node>)
    requires Ok(m, L, x, changed) && x in L.span && x in m && 0 <= L.span[x].at < |L.order|
    requires Detached(m, m', RightPart(L, L.span[x].at), m[x].right, null)
    ensures Ok(m', RightPart(L, L.span[x].at), m[x].right, changed)
  {
    hide Placed, Linked, Stored, Lens, WeightOk, RightPart, Detached;
    var P, d := RightPart(L, L.span[x].at), L.span[x].at + 1;
    RightPartSpans(L, L.span[x].at);
    RightPartShaped(m, m', L, x);
    RightPartLens(m, m', L, x);
    forall n | n in P.span && n in m' ensures WeightOk(m', P, changed, n) {
      At(m, L, x, n);
      WeighedAt(m, L, changed, n);
      InRightPart(m, m', L, x, n);
      PartWeighed(m, m', L, P, changed, d, n);
    }
  }

  /** `m'` is `m` with `x` placed as the root over the trees `a` and `b`. */
  ghost predicate Hung(m: Store, m': Store, A: Layout, a: Node?, x: Node, B: Layout, b: Node?) {
    && A.span.Keys !! B.span.Keys && x !in A.span && x !in B.span
    && Detached(m, m', A, a, x) && Detached(m, m', B, b, x)
    && x in m' && m'[x].left == a && m'[x].right == b && m'[x].parent == null
  }

  lemma InJoinedLeft(m: Store, m': Store, A: Layout, a: Node?, x: Node, B: Layout, b: Node?, c: Node)
    requires Hung(m, m', A, a, x, B, b) && c in A.span && c in m
    ensures c in Joined(A, x, B).span && Joined(A, x, B).span[c] == A.span[c] && c in m' && c != x
    ensures m'[c] == if c == a then m[c].(parent := x) else m[c]
  {
  }

  lemma InJoinedRight(m: Store, m': Store, A: Layout, a: Node?, x: Node, B: Layout, b: Node?, c: Node)
    requires Hung(m, m', A, a, x, B, b) && c in B.span && c in m
    ensures c in Joined(A, x, B).span && Joined(A, x, B).span[c] == Shift(B.span[c], |A.order| + 1) && c in m' && c != x
    ensures m'[c] == if c == b then m[c].(parent := x) else m[c]
  {
  }

  lemma InJoinedRoot(m: Store, m': Store, A: Layout, a: Node?, x: Node, B: Layout, b: Node?)
    requires Hung(m, m', A, a, x, B, b)
    ensures x in Joined(A, x, B).span && Joined(A, x, B).span[x] == Span(0, |A.order|, |A.order| + 1 + |B.order|)
    ensures x in m' && m'[x].left == a && m'[x].right == b && m'[x].parent == null
  {
  }

  lemma JoinedLinksLeft(m: Store, m': Store, A: Layout, a: Node?, x: Node, B: Layout, b: Node?, n: Node)
    requires Shaped(m, A, a) && Hung(m, m', A, a, x, B, b) && n in A.span
    ensures n in Joined(A, x, B).span && LinkOk(m', Joined(A, x, B), x, n)
  {
    hide Placed, Linked, Hung, Joined;
    Neighbours(m, A, a, n);
    InJoinedLeft(m, m', A, a, x, B, b, n);
    InJoinedRoot(m, m', A, a, x, B, b);
    if m[n].left != null { At(m, A, a, m[n].left); InJoinedLeft(m, m', A, a, x, B, b, m[n].left); }
    if m[n].right != null { At(m, A, a, m[n].right); InJoinedLeft(m, m', A, a, x, B, b, m[n].right); }
    if m[n].parent != null {
      At(m, A, a, m[n].parent);
      InJoinedLeft(m, m', A, a, x, B, b, m[n].parent);
    }
  }

  lemma JoinedLinksRight(m: Store, m': Store, A: Layout, a: Node?, x: Node, B: Layout, b: Node?, n: Node)
    requires Shaped(m, B, b) && Hung(m, m', A, a, x, B, b) && n in B.span
    ensures n in Joined(A, x, B).span && LinkOk(m', Joined(A, x, B), x, n)
  {
    hide Placed, Linked, Hung, Joined;
    Neighbours(m, B, b, n);
    InJoinedRight(m, m', A, a, x, B, b, n);
    InJoinedRoot(m, m', A, a, x, B, b);
    if m[n].left != null { At(m, B, b, m[n].left); InJoinedRight(m, m', A, a, x, B, b, m[n].left); }
    if m[n].right != null { At(m, B, b, m[n].right); InJoinedRight(m, m', A, a, x, B, b, m[n].right); }
    if m[n].parent != null {
      At(m, B, b, m[n].parent);
      InJoinedRight(m, m', A, a, x, B, b, m[n].parent);
    }
  }

  lemma JoinedRoot(m: Store, m': Store, A: Layout, a: Node?, x: Node, B: Layout, b: Node?)
    requires Shaped(m, A, a) && Shaped(m, B, b) && Hung(m, m', A, a, x, B, b)
    ensures x in Joined(A, x, B).span && LinkOk(m', Joined(A, x, B), x, x)
  {
    assert RootOk(A, a) && RootOk(B, b);
    hide Placed, Linked, Hung, Joined;
    InJoinedRoot(m, m', A, a, x, B, b);
    if a != null { At(m, A, a, a); InJoinedLeft(m, m', A, a, x, B, b, a); }
    if b != null { At(m, B, b, b); InJoinedRight(m, m', A, a, x, B, b, b); }
  }

  lemma JoinedKeys(A: Layout, x: Node, B: Layout)
    ensures Joined(A, x, B).span.Keys == A.span.Keys + {x} + B.span.Keys
    ensures Joined(A, x, B).order == A.order + [x] + B.order
  {
  }

  lemma JoinedShaped(m: Store, m': Store, A: Layout, a: Node?, x: Node, B: Layout, b: Node?)
    requires Shaped(m, A, a) && Shaped(m, B, b) && Hung(m, m', A, a, x, B, b)
    ensures Shaped(m', Joined(A, x, B), x)
  {
    var J := Joined(A, x, B);
    assert Placed(J) by {
      hide Placed, Joined, Linked;
      JoinedPlaced(A, x, B);
    }
    assert RootOk(J, x) by {
      InJoinedRoot(m, m', A, a, x, B, b);
    }
    JoinedKeys(A, x, B);
    hide Placed, Hung, Joined, LinkOk, RootOk;
    forall n | n in J.span ensures LinkOk(m', J, x, n) {
      hide Linked;
      if n in A.span {
        JoinedLinksLeft(m, m', A, a, x, B, b, n);
      } else if n in B.span {
        JoinedLinksRight(m, m', A, a, x, B, b, n);
      } else {
        JoinedRoot(m, m', A, a, x, B, b);
      }
    }
  }

  lemma JoinedLens(m: Store, m': Store, A: Layout, a: Node?, x: Node, B: Layout, b: Node?)
    requires Hung(m, m', A, a, x, B, b) && Placed(A) && Placed(B) && Stored(m, A) && Stored(m, B)
    ensures Stored(m', Joined(A, x, B))
    ensures Lens(m', Joined(A, x, B)) == Lens(m, A) + [m'[x].len] + Lens(m, B)
  {
    var J := Joined(A, x, B);
    forall j | 0 <= j < |J.order|
      ensures J.order[j] in m' && m'[J.order[j]].len == (Lens(m, A) + [m'[x].len] + Lens(m, B))[j]
    {
      if j < |A.order| {
        InJoinedLeft(m, m', A, a, x, B, b, A.order[j]);
      } else if j > |A.order| {
        InJoinedRight(m, m', A, a, x, B, b, B.order[j - |A.order| - 1]);
      }
    }
  }

  lemma TopWeight(m: Store, L: Layout, top: Node?, changed: set<Node>)
    requires Ok(m, L, top, changed) && Clean(L, changed, 0, |L.order|)
    ensures WeightAt(m, top) == Before(m, L, |L.order|)
  {
    hide Placed, Stored, Lens;
    if top != null {
      WeighedAt(m, L, changed, top);
    }
  }

  lemma JoinedSlices<T>(A: seq<T>, x: T, B: seq<T>)
    ensures A == (A + [x] + B)[0..][..|A|]
    ensures B == (A + [x] + B)[|A| + 1..][..|B|]
  {
  }

  lemma JoinedRootWeight(m: Store, m': Store, A: Layout, a: Node?, x: Node, B: Layout, b: Node?, changed: set<Node>)
    requires Ok(m, A, a, changed) && Ok(m, B, b, changed) && Hung(m, m', A, a, x, B, b)
    requires m'[x].weight == WeightAt(m, a) + m'[x].len + WeightAt(m, b)
    requires var J := Joined(A, x, B);
             && Placed(J) && Stored(m', J) && x in J.span && J.span[x] == Span(0, |A.order|, |A.order| + 1 + |B.order|)
             && J.order == A.order + [x] + B.order && Lens(m', J) == Lens(m, A) + [m'[x].len] + Lens(m, B)
    ensures WeightOk(m', Joined(A, x, B), changed, x)
  {
    var J, i, j := Joined(A, x, B), |A.order|, |B.order|;
    hide Placed, Linked, Stored, Weighted, Hung, Joined, Lens, Clean, Prefix;
    InJoinedRoot(m, m', A, a, x, B, b);
    LensSize(m, A);
    LensSize(m, B);
    JoinedSums(Lens(m, A), m'[x].len, Lens(m, B));
    if Clean(J, changed, 0, i + 1 + j) {
      SubClean(J, changed, 0, i + 1 + j, 0, i);
      SubClean(J, changed, 0, i + 1 + j, i + 1, i + 1 + j);
      JoinedSlices(A.order, x, B.order);
      PartClean(J, A, changed, 0, 0, i);
      PartClean(J, B, changed, i + 1, 0, j);
      TopWeight(m, A, a, changed);
      TopWeight(m, B, b, changed);
    }
  }

  lemma {:induction false} PrefixAppend(a: seq<int>, b: seq<int>, j: int)
    requires 0 <= j <= |b|
    ensures Prefix(a + b, |a| + j) == Prefix(a, |a|) + Prefix(b, j)
    decreases j
  {
    if j == 0 {
      PrefixTake(a + b, |a|, |a|);
      assert (a + b)[..|a|] == a;
    } else {
      PrefixAppend(a, b, j - 1);
    }
  }

  lemma JoinedSums(a: seq<int>, x: int, b: seq<int>)
    ensures Prefix(a + [x] + b, |a| + 1 + |b|) == Prefix(a, |a|) + x + Prefix(b, |b|)
    ensures Prefix(a + [x] + b, 0) == 0
  {
    hide Prefix;
    var ax := a + [x];
    assert |ax| == |a| + 1;
    assert Prefix(ax + b, |ax| + |b|) == Prefix(ax, |ax|) + Prefix(b, |b|) by { PrefixAppend(ax, b, |b|); }
    assert Prefix(ax, |a| + 1) == Prefix(a, |a|) + Prefix([x], 1) by { PrefixAppend(a, [x], 1); }
    assert Prefix([x], 1) == x by { PrefixStep([x], 0); }
    PrefixStep(ax + b, 0);
  }

  lemma PrefixStep(lens: seq<int>, i: int)
    requires 0 <= i < |lens|
    ensures Prefix(lens, 0) == 0 && Prefix(lens, i + 1) == Prefix(lens, i) + lens[i]
  {
  }

  lemma SubClean(L: Layout, changed: set<Node>, lo: int, hi: int, lo': int, hi': int)
    requires 0 <= lo <= lo' <= hi' <= hi <= |L.order| && Clean(L, changed, lo, hi)
    ensures Clean(L, changed, lo', hi')
  {
  }

  lemma JoinedOk(m: Store, m': Store, A: Layout, a: Node?, x: Node, B: Layout, b: Node?, changed: set<Node>)
    requires Ok(m, A, a, changed) && Ok(m, B, b, changed) && Hung(m, m', A, a, x, B, b)
    requires m'[x].weight == WeightAt(m, a) + m'[x].len + WeightAt(m, b)
    ensures Ok(m', Joined(A, x, B), x, changed)
  {
    var J := Joined(A, x, B);
    hide Placed, Linked, Stored, Lens, WeightOk, Hung, Joined;
    JoinedShaped(m, m', A, a, x, B, b);
    InJoinedRoot(m, m', A, a, x, B, b);
    JoinedLens(m, m', A, a, x, B, b);
    JoinedKeys(A, x, B);
    JoinedRootWeight(m, m', A, a, x, B, b, changed);
    forall n | n in J.span && n in m' ensures WeightOk(m', J, changed, n) {
      if n in A.span {
        JoinedWeighedLeft(m, m', A, a, x, B, b, changed, n);
      } else if n in B.span {
        JoinedWeighedRight(m, m', A, a, x, B, b, changed, n);
      }
    }
  }

  lemma JoinedWeighedLeft(m: Store, m': Store, A: Layout, a: Node?, x: Node, B: Layout, b: Node?, changed: set<Node>,
      n: Node)
    requires Ok(m, A, a, changed) && Ok(m, B, b, changed) && Hung(m, m', A, a, x, B, b) && n in A.span && n in m'
    requires Placed(Joined(A, x, B)) && Stored(m', Joined(A, x, B)) && n in Joined(A, x, B).span
    requires Joined(A, x, B).order == A.order + [x] + B.order
    requires Lens(m', Joined(A, x, B)) == Lens(m, A) + [m'[x].len] + Lens(m, B)
    ensures WeightOk(m', Joined(A, x, B), changed, n)
  {
    hide Placed, Linked, Stored, Weighted, Hung, Joined, WeightOk;
    At(m, A, a, n);
    WeighedAt(m, A, changed, n);
    InJoinedLeft(m, m', A, a, x, B, b, n);
    InJoinedRoot(m, m', A, a, x, B, b);
    LensSize(m, A);
    LensSize(m, B);
    hide Lens;
    JoinedSlices(A.order, x, B.order);
    JoinedSlices(Lens(m, A), m'[x].len, Lens(m, B));
    PartWeighed(m', m, Joined(A, x, B), A, changed, 0, n);
  }

  lemma JoinedWeighedRight(m: Store, m': Store, A: Layout, a: Node?, x: Node, B: Layout, b: Node?, changed: set<Node>,
      n: Node)
    requires Ok(m, A, a, changed) && Ok(m, B, b, changed) && Hung(m, m', A, a, x, B, b) && n in B.span && n in m'
    requires Placed(Joined(A, x, B)) && Stored(m', Joined(A, x, B)) && n in Joined(A, x, B).span
    requires Joined(A, x, B).order == A.order + [x] + B.order
    requires Lens(m', Joined(A, x, B)) == Lens(m, A) + [m'[x].len] + Lens(m, B)
    ensures WeightOk(m', Joined(A, x, B), changed, n)
  {
    hide Placed, Linked, Stored, Weighted, Hung, Joined, WeightOk;
    At(m, B, b, n);
    WeighedAt(m, B, changed, n);
    InJoinedRight(m, m', A, a, x, B, b, n);
    InJoinedRoot(m, m', A, a, x, B, b);
    LensSize(m, A);
    LensSize(m, B);
    hide Lens;
    JoinedSlices(A.order, x, B.order);
    JoinedSlices(Lens(m, A), m'[x].len, Lens(m, B));
    PartWeighed(m', m, Joined(A, x, B), B, changed, |A.order| + 1, n);
  }

  ghost function Nothing(): (L: Layout) {
    Layout([], map[])
  }

  lemma NothingOk(m: Store, changed: set<Node>)
    ensures Ok(m, Nothing(), null, changed)
  {
  }

  ghost function WithParent(m: Store, n: Node?, p: Node?): (m': Store) {
    if n == null || n !in m then m else m[n := m[n].(parent := p)]
  }

  /** The two subtrees of `x`, on their own. */
  ghost function CutBelow(m: Store, x: Node): (m': Store)
    requires x in m
  {
    WithParent(WithParent(m, m[x].left, null), m[x].right, null)
  }

  lemma SplitOk(m: Store, L: Layout, x: Node, changed: set<Node>)
    requires Ok(m, L, x, changed) && x in L.span && x in m
    ensures 0 <= L.span[x].at < |L.order|
    ensures Ok(CutBelow(m, x), LeftPart(L, L.span[x].at), m[x].left, changed)
    ensures Ok(CutBelow(m, x), RightPart(L, L.span[x].at), m[x].right, changed)
  {
    hide Placed, Linked, Weighted, Stored, Detached;
    At(m, L, x, x);
    PartsDetached(m, L, x);
    LeftPartOk(m, CutBelow(m, x), L, x, changed);
    RightPartOk(m, CutBelow(m, x), L, x, changed);
  }

  lemma PartsDetached(m: Store, L: Layout, x: Node)
    requires Shaped(m, L, x) && x in L.span && x in m && 0 <= L.span[x].at < |L.order|
    ensures Detached(m, CutBelow(m, x), LeftPart(L, L.span[x].at), m[x].left, null)
    ensures Detached(m, CutBelow(m, x), RightPart(L, L.span[x].at), m[x].right, null)
  {
    hide Placed, Linked;
    Neighbours(m, L, x, x);
    if m[x].left != null { At(m, L, x, m[x].left); }
    if m[x].right != null { At(m, L, x, m[x].right); }
  }

  lemma PartKeys(L: Layout, x: Node)
    requires Placed(L) && x in L.span && 0 <= L.span[x].at < |L.order|
    ensures LeftPart(L, L.span[x].at).span.Keys !! RightPart(L, L.span[x].at).span.Keys
    ensures x !in LeftPart(L, L.span[x].at).span && x !in RightPart(L, L.span[x].at).span
    ensures LeftPart(L, L.span[x].at).span.Keys + {x} + RightPart(L, L.span[x].at).span.Keys == L.span.Keys
    ensures LeftPart(L, L.span[x].at).order == L.order[..L.span[x].at]
    ensures RightPart(L, L.span[x].at).order == L.order[L.span[x].at + 1..]
    ensures L.order[L.span[x].at] == x
  {
    var A, B, i := LeftPart(L, L.span[x].at), RightPart(L, L.span[x].at), L.span[x].at;
    forall n | n in L.span && n != x ensures n in A.span || n in B.span {
      PlacedAt(L, n);
      PlacedAt(L, x);
    }
  }

  /** `m'` is `m` with `node` as the root above the old root `prev`, taking over its right subtree. */
  ghost predicate Grafted(m: Store, m': Store, L: Layout, prev: Node, node: Node) {
    && prev in m && prev in m' && node in m' && node !in L.span
    && m'[prev] == m[prev].(parent := node, right := null, weight := WeightAt(m, m[prev].left) + m[prev].len)
    && m'[node].left == prev && m'[node].right == m[prev].right && m'[node].parent == null
    && m'[node].weight == m'[prev].weight + m'[node].len + WeightAt(m, m[prev].right)
    && (forall n :: n in L.span && n in m && n != prev ==>
          n in m' && m'[n] == if n == m[prev].right then m[n].(parent := node) else m[n])
  }

  ghost function Grown(L: Layout, prev: Node, node: Node): (r: Layout)
    requires prev in L.span && 0 <= L.span[prev].at < |L.order|
  {
    Joined(Joined(LeftPart(L, L.span[prev].at), prev, Nothing()), node, RightPart(L, L.span[prev].at))
  }

  lemma GrownOrder(L: Layout, prev: Node, node: Node)
    requires Placed(L) && prev in L.span && 0 <= L.span[prev].at < |L.order|
    ensures Grown(L, prev, node).order == L.order[..L.span[prev].at + 1] + [node] + L.order[L.span[prev].at + 1..]
    ensures Grown(L, prev, node).span.Keys == L.span.Keys + {node}
  {
    hide Placed, LeftPart, RightPart, Joined;
    var A, B := LeftPart(L, L.span[prev].at), RightPart(L, L.span[prev].at);
    PartKeys(L, prev);
    JoinedKeys(A, prev, Nothing());
    JoinedKeys(Joined(A, prev, Nothing()), node, B);
  }

  /** The store in which `prev` is the root over its left subtree, and its right subtree stands alone. */
  ghost function Halved(m: Store, prev: Node): (m': Store)
    requires prev in m
  {
    WithParent(m, m[prev].right, null)[
      prev := m[prev].(right := null, parent := null, weight := WeightAt(m, m[prev].left) + m[prev].len)]
  }

  lemma HalvedHangs(m: Store, L: Layout, prev: Node)
    requires Shaped(m, L, prev) && prev in L.span && prev in m && 0 <= L.span[prev].at < |L.order|
    ensures Hung(CutBelow(m, prev), Halved(m, prev), LeftPart(L, L.span[prev].at), m[prev].left, prev, Nothing(), null)
    ensures Same(CutBelow(m, prev), Halved(m, prev), RightPart(L, L.span[prev].at))
    ensures WeightAt(CutBelow(m, prev), m[prev].left) == WeightAt(m, m[prev].left)
  {
    hide Placed, Linked;
    Neighbours(m, L, prev, prev);
    if m[prev].left != null { At(m, L, prev, m[prev].left); }
    if m[prev].right != null { At(m, L, prev, m[prev].right); }
  }

  /** The two stores agree on the nodes of `L`. */
  ghost predicate Same(m: Store, m': Store, L: Layout) {
    forall n :: n in L.span && n in m ==> n in m' && m'[n] == m[n]
  }

  lemma SameOk(m: Store, m': Store, L: Layout, top: Node?, changed: set<Node>)
    requires Ok(m, L, top, changed) && Same(m, m', L)
    ensures Ok(m', L, top, changed)
  {
    hide Placed;
    assert Linked(m', L, top) by {
      forall n | n in L.span ensures LinkOk(m', L, top, n) {
        assert LinkOk(m, L, top, n);
      }
    }
    assert Stored(m', L) && Lens(m', L) == Lens(m, L) by {
      SameStored(m, m', L);
    }
    hide Linked, Stored, Lens, Prefix;
    forall n | n in L.span && n in m' ensures WeightOk(m', L, changed, n) {
      At(m, L, top, n);
      StillWeighed(m, m', L, L, changed, n);
    }
  }

  lemma SameStored(m: Store, m': Store, L: Layout)
    requires Placed(L) && Stored(m, L) && Same(m, m', L)
    ensures Stored(m', L) && Lens(m', L) == Lens(m, L)
  {
  }

  lemma GraftedHangs(m: Store, m': Store, L: Layout, prev: Node, node: Node)
    requires Shaped(m, L, prev) && prev in L.span && prev in m && 0 <= L.span[prev].at < |L.order|
    requires Grafted(m, m', L, prev, node)
    ensures Hung(Halved(m, prev), m', Joined(LeftPart(L, L.span[prev].at), prev, Nothing()), prev,
                 node, RightPart(L, L.span[prev].at), m[prev].right)
    ensures WeightAt(Halved(m, prev), prev) == m'[prev].weight
    ensures WeightAt(Halved(m, prev), m[prev].right) == WeightAt(m, m[prev].right)
  {
    hide Placed, Linked, Joined;
    Neighbours(m, L, prev, prev);
    if m[prev].right != null { At(m, L, prev, m[prev].right); }
    PartKeys(L, prev);
    JoinedKeys(LeftPart(L, L.span[prev].at), prev, Nothing());
  }

  lemma GraftedOk(m: Store, m': Store, L: Layout, prev: Node, node: Node, changed: set<Node>)
    requires Ok(m, L, prev, changed) && prev in L.span && Grafted(m, m', L, prev, node)
    ensures 0 <= L.span[prev].at < |L.order| && Ok(m', Grown(L, prev, node), node, changed)
  {
    hide Placed, Linked, Weighted, Stored;
    At(m, L, prev, prev);
    assert m'[node].weight == m'[prev].weight + m'[node].len + WeightAt(m, m[prev].right);
    assert Halved(m, prev)[prev].weight == WeightAt(m, m[prev].left) + Halved(m, prev)[prev].len;
    hide Hung, Grafted, LeftPart, RightPart, Joined, CutBelow, Halved, Same;
    var A, B, C, H := LeftPart(L, L.span[prev].at), RightPart(L, L.span[prev].at), CutBelow(m, prev), Halved(m, prev);
    SplitOk(m, L, prev, changed);
    HalvedHangs(m, L, prev);
    GraftedHangs(m, m', L, prev, node);
    hide Ok;
    NothingOk(C, changed);
    JoinedOk(C, H, A, m[prev].left, prev, Nothing(), null, changed);
    SameOk(C, H, B, m[prev].right, changed);
    JoinedOk(H, m', Joined(A, prev, Nothing()), prev, node, B, m[prev].right, changed);
  }

  /** Where the root `x` is the last node, its right side is free for another tree. */
  lemma LastHasRoom(m: Store, L: Layout, x: Node)
    requires Shaped(m, L, x) && x in L.span && L.span[x].at == |L.order| - 1
    ensures x in m && m[x].right == null
  {
    hide Placed, Linked;
    At(m, L, x, x);
    RootThere(m, L, x, x);
    if m[x].right != null { At(m, L, x, m[x].right); }
  }

  /** `m'` is `m` with the tree `b` hung on the free right side of the root `x`. */
  ghost predicate Appended(m: Store, m': Store, L: Layout, x: Node, B: Layout, b: Node?) {
    && L.span.Keys !! B.span.Keys && x in m && x in m'
    && m'[x] == m[x].(right := b, weight := WeightAt(m, m[x].left) + m[x].len + WeightAt(m, b))
    && (forall n :: n in L.span && n in m && n != x ==> n in m' && m'[n] == m[n])
    && Detached(m, m', B, b, x)
  }

  lemma AppendedHangs(m: Store, m': Store, L: Layout, x: Node, B: Layout, b: Node?)
    requires Shaped(m, L, x) && x in L.span && 0 <= L.span[x].at == |L.order| - 1 && Shaped(m, B, b)
             && Appended(m, m', L, x, B, b)
    ensures x in m && Hung(CutBelow(m, x), m', LeftPart(L, L.span[x].at), m[x].left, x, B, b)
    ensures Same(m, CutBelow(m, x), B)
    ensures WeightAt(CutBelow(m, x), m[x].left) == WeightAt(m, m[x].left)
    ensures WeightAt(CutBelow(m, x), b) == WeightAt(m, b)
  {
    hide Placed, Linked;
    LastHasRoom(m, L, x);
    Neighbours(m, L, x, x);
    PartKeys(L, x);
    if m[x].left != null { At(m, L, x, m[x].left); }
  }

  ghost function Concat(L: Layout, x: Node, B: Layout): (r: Layout)
    requires x in L.span && 0 <= L.span[x].at <= |L.order|
  {
    Joined(LeftPart(L, L.span[x].at), x, B)
  }

  lemma ConcatOrder(L: Layout, x: Node, B: Layout)
    requires Placed(L) && x in L.span && 0 <= L.span[x].at == |L.order| - 1
    ensures Concat(L, x, B).order == L.order + B.order
    ensures Concat(L, x, B).span.Keys == L.span.Keys + B.span.Keys
  {
    hide Placed, LeftPart, RightPart, Joined;
    PartKeys(L, x);
    NoRightPart(L, x);
    JoinedKeys(LeftPart(L, L.span[x].at), x, B);
    assert L.order == L.order[..L.span[x].at] + [x];
  }

  lemma NoRightPart(L: Layout, x: Node)
    requires Placed(L) && x in L.span && 0 <= L.span[x].at == |L.order| - 1
    ensures RightPart(L, L.span[x].at).span.Keys == {}
  {
    forall n | n in L.span ensures L.span[n].at <= L.span[x].at {
      PlacedAt(L, n);
    }
  }

  lemma AppendedOk(m: Store, m': Store, L: Layout, x: Node, B: Layout, b: Node?)
    requires Ok(m, L, x, {}) && x in L.span && 0 <= L.span[x].at == |L.order| - 1 && Ok(m, B, b, {})
             && Appended(m, m', L, x, B, b)
    ensures Ok(m', Concat(L, x, B), x, {})
  {
    hide Placed, Linked, Weighted, Stored;
    assert m'[x].weight == WeightAt(m, m[x].left) + m'[x].len + WeightAt(m, b);
    hide Hung, Appended, LeftPart, RightPart, Joined, CutBelow, Same;
    AppendedHangs(m, m', L, x, B, b);
    SplitOk(m, L, x, {});
    hide Ok;
    SameOk(m, CutBelow(m, x), B, b, {});
    JoinedOk(CutBelow(m, x), m', LeftPart(L, L.span[x].at), m[x].left, x, B, b, {});
  }

  /** A root whose own weight is in doubt. */
  lemma RootInDoubt(m: Store, m': Store, L: Layout, x: Node)
    requires Ok(m', L, x, {}) && x in m && x in L.span && m'.Keys == m.Keys
    requires forall n :: n in m && n in m' ==> m[n] == if n == x then m'[n].(weight := m[n].weight) else m'[n]
    ensures Ok(m, L, x, {x})
  {
    hide Placed, Linked, Weighted, Stored, Lens;
    assert SameLinks(m', m);
    SameLinksShaped(m', m, L, x);
    forall n | n in L.span && n in m ensures WeightOk(m, L, {x}, n) {
      At(m', L, x, n);
      if n == x {
        assert !Clean(L, {x}, L.span[n].lo, L.span[n].hi);
      } else {
        WeighedAt(m', L, {}, n);
      }
    }
    hide WeightOk;
    assert Weighted(m, L, {x}) by { AllWeighed(m, L, {x}); }
  }

  lemma AllWeighed(m: Store, L: Layout, changed: set<Node>)
    requires Placed(L) && Stored(m, L) && forall n :: n in L.span && n in m ==> WeightOk(m, L, changed, n)
    ensures Weighted(m, L, changed)
  {
  }

  // ---- Pointer code -----------------------------------------------------------------------

  method UpdateWeight(node: Node)
    requires node.left != node && node.right != node
    modifies node`weight
    ensures node.weight == node.LeftWeight() + node.len + node.RightWeight()
  {
    node.weight := node.len;
    if node.left != null {
      node.weight := node.weight + node.LeftWeight();
    }
    if node.right != null {
      node.weight := node.weight + node.RightWeight();
    }
  }

  /** The nodes a rotation of `pivot` over its parent reads or writes: all in `S`, all different. */
  ghost predicate Rotatable(pivot: Node, S: set<Node>)
    reads S
  {
    && pivot in S && pivot.parent != null && pivot.parent in S && pivot.parent != pivot
    && var root := pivot.parent;
    && (root.parent != null ==> root.parent in S && root.parent != root && root.parent != pivot)
    && (forall c :: c in {pivot.left, pivot.right} && c != null ==>
          c in S && c != pivot && c != root && c != root.parent)
    && (forall c :: c in {root.left, root.right} && c != null && c != pivot ==>
          c in S && c != pivot && c != root)
    && (pivot.left != null ==> pivot.left != pivot.right)
  }

  method TurnLeft(t: Tree, pivot: Node, ghost S: set<Node>)
    requires Rotatable(pivot, S) && pivot.parent.right == pivot && pivot.parent.left != pivot
    modifies t`root, pivot, pivot.parent, pivot.parent.parent, pivot.left
    ensures var root := old(pivot.parent); var above, inner := old(pivot.parent.parent), old(pivot.left);
            && CellOf(root) == old(CellOf(pivot.parent)).(right := inner, parent := pivot, weight := root.weight)
            && CellOf(pivot) == old(CellOf(pivot)).(left := root, parent := above, weight := pivot.weight)
            && root.weight == root.LeftWeight() + root.len + root.RightWeight()
            && pivot.weight == pivot.LeftWeight() + pivot.len + pivot.RightWeight()
            && (inner != null ==> CellOf(inner) == old(CellOf(pivot.left)).(parent := root))
            && (above != null ==> CellOf(above) == Rehung(old(CellOf(pivot.parent.parent)), root, pivot))
            && t.root == if above == null then pivot else old(t.root)
  {
    var root := pivot.parent;
    if root.parent != null {
      if root == root.parent.left {
        root.parent.left := pivot;
      } else {
        root.parent.right := pivot;
      }
    } else {
      t.root := pivot;
    }
    pivot.parent := root.parent;
    root.right := pivot.left;
    if root.right != null {
      root.right.parent := root;
    }
    pivot.left := root;
    pivot.left.parent := pivot;
    UpdateWeight(root);
    UpdateWeight(pivot);
  }

  method TurnRight(t: Tree, pivot: Node, ghost S: set<Node>)
    requires Rotatable(pivot, S) && pivot.parent.left == pivot && pivot.parent.right != pivot
    modifies t`root, pivot, pivot.parent, pivot.parent.parent, pivot.right
    ensures var root := old(pivot.parent); var above, inner := old(pivot.parent.parent), old(pivot.right);
            && CellOf(root) == old(CellOf(pivot.parent)).(left := inner, parent := pivot, weight := root.weight)
            && CellOf(pivot) == old(CellOf(pivot)).(right := root, parent := above, weight := pivot.weight)
            && root.weight == root.RightWeight() + root.len + root.LeftWeight()
            && pivot.weight == pivot.RightWeight() + pivot.len + pivot.LeftWeight()
            && (inner != null ==> CellOf(inner) == old(CellOf(pivot.right)).(parent := root))
            && (above != null ==> CellOf(above) == Rehung(old(CellOf(pivot.parent.parent)), root, pivot))
            && t.root == if above == null then pivot else old(t.root)
  {
    var root := pivot.parent;
    if root.parent != null {
      if root == root.parent.left {
        root.parent.left := pivot;
      } else {
        root.parent.right := pivot;
      }
    } else {
      t.root := pivot;
    }
    pivot.parent := root.parent;
    root.left := pivot.right;
    if root.left != null {
      root.left.parent := root;
    }
    pivot.right := root;
    pivot.right.parent := pivot;
    UpdateWeight(root);
    UpdateWeight(pivot);
  }

  /** An inner grandchild is not the node above: it lies within what the other covers. */
  lemma Nested(m: Store, L: Layout, top: Node?, pivot: Node, c: Node)
    requires Placed(L) && Linked(m, L, top) && pivot in L.span && pivot in m && m[pivot].parent != null
    requires c in L.span && c in m && m[c].parent == pivot
    ensures m[pivot].parent in m && c != m[pivot].parent && c != m[m[pivot].parent].parent
  {
    hide Placed, Linked;
    Neighbours(m, L, top, c);
    Neighbours(m, L, top, pivot);
    Neighbours(m, L, top, m[pivot].parent);
  }

  lemma CanRotate(S: set<Node>, L: Layout, top: Node?, pivot: Node)
    requires Placed(L) && Linked(Snap(S), L, top) && L.span.Keys == S && pivot in S && pivot.parent != null
    ensures pivot.parent in S && Rotatable(pivot, S)
    ensures pivot.parent.right == pivot ==> LeftSite(Snap(S), L, top, pivot.parent, pivot) && pivot.parent.left != pivot
    ensures pivot.parent.left == pivot ==>
            RightSite(Snap(S), L, top, pivot.parent, pivot) && pivot.parent.right != pivot
  {
    hide Placed, Linked;
    var m := Snap(S);
    assert m[pivot] == CellOf(pivot);
    Neighbours(m, L, top, pivot);
    assert m[pivot.parent] == CellOf(pivot.parent);
    Neighbours(m, L, top, pivot.parent);
    if pivot.left != null { Nested(m, L, top, pivot, pivot.left); }
    if pivot.right != null { Nested(m, L, top, pivot, pivot.right); }
  }

  /** The links a left rotation of `pivot` over `root` leaves around them. */
  ghost predicate LeftTurn(m: Store, m': Store, root: Node, pivot: Node) {
    && root in m && root in m' && pivot in m && pivot in m'
    && m'[pivot].left == root && m'[pivot].right == m[pivot].right && m'[pivot].parent == m[root].parent
    && m'[root].left == m[root].left && m'[root].parent == pivot
    && (m[root].parent != null ==>
          var g := m[root].parent;
          && g in m && g in m' && m'[g].parent == m[g].parent
          && m'[g].left == (if m[g].left == root then pivot else m[g].left)
          && m'[g].right == (if m[g].left == root then m[g].right else pivot))
    && (forall n :: n in m ==> n in m' && m'[n].len == m[n].len)
  }

  lemma LeftTurns(m: Store, m': Store, L: Layout, top: Node?, root: Node, pivot: Node)
    requires LeftSite(m, L, top, root, pivot) && RotatedLeft(m, m', pivot)
    ensures LeftTurn(m, m', root, pivot)
  {
    hide Placed, Linked, RotatedLeft;
    Neighbours(m, L, top, root);
    Neighbours(m, L, top, pivot);
    if m[pivot].left != null { Nested(m, L, top, pivot, m[pivot].left); }
    LeftLinksOf(m, m', root, pivot, root);
    LeftLinksOf(m, m', root, pivot, pivot);
    LeftLinksOf(m, m', root, pivot, m[root].parent);
    RotateLeftKeeps(m, m', root, pivot);
  }

  /** The links a right rotation of `pivot` over `root` leaves around them. */
  ghost predicate RightTurn(m: Store, m': Store, root: Node, pivot: Node) {
    && root in m && root in m' && pivot in m && pivot in m'
    && m'[pivot].right == root && m'[pivot].left == m[pivot].left && m'[pivot].parent == m[root].parent
    && m'[root].right == m[root].right && m'[root].parent == pivot
    && (m[root].parent != null ==>
          var g := m[root].parent;
          && g in m && g in m' && m'[g].parent == m[g].parent
          && m'[g].left == (if m[g].left == root then pivot else m[g].left)
          && m'[g].right == (if m[g].left == root then m[g].right else pivot))
    && (forall n :: n in m ==> n in m' && m'[n].len == m[n].len)
  }

  lemma RightTurns(m: Store, m': Store, L: Layout, top: Node?, root: Node, pivot: Node)
    requires RightSite(m, L, top, root, pivot) && RotatedRight(m, m', pivot)
    ensures RightTurn(m, m', root, pivot)
  {
    hide Placed, Linked, RotatedRight;
    Neighbours(m, L, top, root);
    Neighbours(m, L, top, pivot);
    if m[pivot].right != null { Nested(m, L, top, pivot, m[pivot].right); }
    RightLinksOf(m, m', root, pivot, root);
    RightLinksOf(m, m', root, pivot, pivot);
    RightLinksOf(m, m', root, pivot, m[root].parent);
    RotateRightKeeps(m, m', root, pivot);
  }

  method SpinLeft(t: Tree, pivot: Node, ghost S: set<Node>)
    requires Rotatable(pivot, S) && pivot.parent.right == pivot && pivot.parent.left != pivot
    modifies t`root, S
    ensures RotatedLeft(old(Snap(S)), Snap(S), pivot)
    ensures t.root == if old(pivot.parent.parent) == null then pivot else old(t.root)
  {
    ghost var m := Snap(S);
    ghost var root := pivot.parent;
    TurnLeft(t, pivot, S);
    ghost var m' := Snap(S);
    assert m'.Keys == m.Keys;
    assert m'[root] == CellOf(root) && m'[pivot] == CellOf(pivot);
  }

  method SpinRight(t: Tree, pivot: Node, ghost S: set<Node>)
    requires Rotatable(pivot, S) && pivot.parent.left == pivot && pivot.parent.right != pivot
    modifies t`root, S
    ensures RotatedRight(old(Snap(S)), Snap(S), pivot)
    ensures t.root == if old(pivot.parent.parent) == null then pivot else old(t.root)
  {
    ghost var m := Snap(S);
    ghost var root := pivot.parent;
    TurnRight(t, pivot, S);
    ghost var m' := Snap(S);
    assert m'.Keys == m.Keys;
    assert m'[root] == CellOf(root) && m'[pivot] == CellOf(pivot);
  }

  method CarryLeft(t: Tree, pivot: Node, ghost S: set<Node>, ghost L: Layout, ghost changed: set<Node>)
    requires Ok(Snap(S), L, t.root, changed) && L.span.Keys == S
    requires pivot in S && pivot.parent != null && pivot.parent.right == pivot
    modifies t`root, S
    ensures old(pivot.parent) in S && LeftTurn(old(Snap(S)), Snap(S), old(pivot.parent), pivot)
    ensures Ok(Snap(S), TurnedLeft(L, old(pivot.parent), pivot), t.root, changed)
    ensures t.root == if old(pivot.parent.parent) == null then pivot else old(t.root)
  {
    hide Placed, Linked, Weighted, Stored;
    ghost var m, top, root := Snap(S), t.root, pivot.parent;
    CanRotate(S, L, top, pivot);
    hide Ok, LeftSite, Rotatable, RotatedLeft;
    SpinLeft(t, pivot, S);
    hide LeftTurn;
    RotateLeftOk(m, Snap(S), L, top, t.root, changed, root, pivot);
    LeftTurns(m, Snap(S), L, top, root, pivot);
  }

  method CarryRight(t: Tree, pivot: Node, ghost S: set<Node>, ghost L: Layout, ghost changed: set<Node>)
    requires Ok(Snap(S), L, t.root, changed) && L.span.Keys == S
    requires pivot in S && pivot.parent != null && pivot.parent.left == pivot
    modifies t`root, S
    ensures old(pivot.parent) in S && RightTurn(old(Snap(S)), Snap(S), old(pivot.parent), pivot)
    ensures Ok(Snap(S), TurnedRight(L, old(pivot.parent), pivot), t.root, changed)
    ensures t.root == if old(pivot.parent.parent) == null then pivot else old(t.root)
  {
    hide Placed, Linked, Weighted, Stored;
    ghost var m, top, root := Snap(S), t.root, pivot.parent;
    CanRotate(S, L, top, pivot);
    hide Ok, RightSite, Rotatable, RotatedRight;
    SpinRight(t, pivot, S);
    hide RightTurn;
    RotateRightOk(m, Snap(S), L, top, t.root, changed, root, pivot);
    RightTurns(m, Snap(S), L, top, root, pivot);
  }

  /** `node` took the place of `g`; if it came from the right of it, `g` is now close below on its left. */
  ghost predicate Stepped(m: Store, m': Store, L: Layout, L': Layout, g: Node, node: Node) {
    && L'.order == L.order && L'.span.Keys == L.span.Keys && m'.Keys == m.Keys
    && g in L.span && node in L.span && L'.span[node] == L.span[g].(at := L.span[node].at)
    && (forall n :: n in m && n in m' ==> m'[n].len == m[n].len)
    && (L.span[g].at < L.span[node].at ==> Near(m', node, g))
  }

  /** `x` hangs on the left of `node`, or one link further down on the left. */
  ghost predicate Near(m: Store, node: Node, x: Node) {
    && node in m
    && (m[node].left == x || (m[node].left != null && m[node].left in m && m[m[node].left].left == x))
  }

  predicate IsLeftChild(n: Node?)
    reads n, if n == null then null else n.parent
  {
    n != null && n.parent != null && n.parent.left == n
  }

  predicate IsRightChild(n: Node?)
    reads n, if n == null then null else n.parent
  {
    n != null && n.parent != null && n.parent.right == n
  }

  /** What the tree says about a node and its children, read off the heap. */
  lemma FamilyOf(S: set<Node>, L: Layout, top: Node?, changed: set<Node>, n: Node)
    requires Ok(Snap(S), L, top, changed) && L.span.Keys == S && n in S
    ensures n.parent != null ==> n.parent in S && (n.parent.left == n || n.parent.right == n)
    ensures n.parent == null <==> n == top
    ensures L.span[n].lo <= L.span[n].at < L.span[n].hi
    ensures n.left != null ==>
            n.left in S && n.left.parent == n && L.span[n.left] == Span(L.span[n].lo, L.span[n.left].at, L.span[n].at)
    ensures n.right != null ==>
            && n.right in S && n.right.parent == n
            && L.span[n.right] == Span(L.span[n].at + 1, L.span[n.right].at, L.span[n].hi)
  {
    hide Placed, Linked, Weighted;
    At(Snap(S), L, top, n);
  }

  method Reweigh(node: Node, ghost S: set<Node>)
    requires node in S && node.left != node && node.right != node
    requires (node.left != null ==> node.left in S) && (node.right != null ==> node.right in S)
    modifies S
    ensures Snap(S) == old(Snap(S))[node := Refreshed(old(Snap(S)), old(CellOf(node)))]
  {
    ghost var m := Snap(S);
    UpdateWeight(node);
    assert Snap(S)[node] == Refreshed(m, m[node]);
  }

  ghost predicate Wider(L: Layout, n: Node, p: Node) {
    n in L.span && p in L.span && Width(L.span[n]) < Width(L.span[p])
  }

  /** One step up: `node` gets its weight from its children, and the doubt moves to its parent. */
  method ReweighUp(node: Node, ghost S: set<Node>, ghost L: Layout, ghost top: Node?, ghost changed: set<Node>)
    requires Ok(Snap(S), L, top, changed + {node}) && L.span.Keys == S && node in S
    modifies S
    ensures Ok(Snap(S), L, top, Including(changed, node.parent))
    ensures SameLinks(old(Snap(S)), Snap(S)) && node.parent == old(node.parent)
    ensures node.parent != null ==> node.parent in S && Wider(L, node, node.parent)
    ensures node.parent == null <==> node == top
  {
    hide Placed, Linked, Weighted, Stored;
    ghost var m := Snap(S);
    Neighbours(m, L, top, node);
    if node.parent != null { At(m, L, top, node.parent); }
    hide Ok;
    Reweigh(node, S);
    RefreshedLinks(m, Snap(S), node);
    hide SameLinks;
    Climb(m, Snap(S), L, top, changed, node);
  }

  lemma WidthFits(S: set<Node>, L: Layout, top: Node?, changed: set<Node>, n: Node)
    requires Ok(Snap(S), L, top, changed) && n in L.span
    ensures 0 < Width(L.span[n]) <= |L.order|
  {
    hide Linked, Weighted, Stored;
  }

  lemma SameItself(m: Store)
    ensures SameLinks(m, m)
  {
  }

  lemma SameTwice(m: Store, m1: Store, m2: Store)
    requires SameLinks(m, m1) && SameLinks(m1, m2)
    ensures SameLinks(m, m2)
  {
  }

  method ReweighAll(node: Node, ghost S: set<Node>, ghost L: Layout, ghost top: Node?, ghost changed: set<Node>)
    requires Ok(Snap(S), L, top, changed) && L.span.Keys == S && node in S
    modifies S
    ensures Ok(Snap(S), L, top, changed - {node}) && SameLinks(old(Snap(S)), Snap(S))
  {
    hide Ok, SameLinks;
    ghost var m, Z := Snap(S), changed - {node};
    Weaken(m, L, top, changed, Z + {node});
    SameItself(m);
    var cursor: Node? := node;
    while cursor != null
      invariant cursor != null ==> cursor in S && Ok(Snap(S), L, top, Z + {cursor})
      invariant cursor == null ==> Ok(Snap(S), L, top, Z)
      invariant SameLinks(m, Snap(S))
      decreases if cursor == null then 0 else 1 + |L.order| - Width(L.span[cursor])
    {
      WidthFits(S, L, top, Z + {cursor}, cursor);
      ghost var m1 := Snap(S);
      ReweighUp(cursor, S, L, top, Z);
      SameTwice(m, m1, Snap(S));
      if cursor.parent != null { WidthFits(S, L, top, Z + {cursor.parent}, cursor.parent); }
      cursor := cursor.parent;
    }
  }

  /** Rotations moved `node` up: the sequence stands, and if the old root gave way, it is close by. */
  ghost predicate Risen(m: Store, m': Store, L: Layout, L': Layout, top: Node?, top': Node?, node: Node) {
    && L'.order == L.order && L'.span.Keys == L.span.Keys && m'.Keys == m.Keys
    && (forall n :: n in m && n in m' ==> m'[n].len == m[n].len)
    && node in L.span && top != null && top in L.span
    && (top' == top || (top' == node && (L.span[top].at < L.span[node].at ==> Near(m', node, top))))
  }

  lemma SamePlaces(L: Layout, L': Layout)
    requires Placed(L) && Placed(L') && L'.order == L.order
    ensures forall n :: n in L.span && n in L'.span ==> L'.span[n].at == L.span[n].at
  {
  }

  lemma SteppedRises(m: Store, m': Store, L: Layout, L': Layout, top: Node?, top': Node?, g: Node, node: Node)
    requires Shaped(m, L, top) && Stepped(m, m', L, L', g, node) && g in m
    requires top' == if m[g].parent == null then node else top
    ensures Risen(m, m', L, L', top, top', node)
  {
    hide Placed, Linked;
    At(m, L, top, g);
    RootThere(m, L, top, g);
  }

  lemma RootThere(m: Store, L: Layout, top: Node?, n: Node)
    requires Shaped(m, L, top) && n in L.span
    ensures top != null && top in L.span && L.span[top].lo == 0 && L.span[top].hi == |L.order|
  {
  }

  lemma Rises(m: Store, m': Store, L: Layout, L': Layout, top: Node?, top': Node?, g: Node, node: Node,
      changed: set<Node>)
    requires Ok(m, L, top, changed) && Ok(m', L', top', changed) && Stepped(m, m', L, L', g, node) && g in m
             && node in m
    requires top' == if m[g].parent == null then node else top
    requires m[node].parent != null && m[node].parent in m && m[m[node].parent].parent == g
    ensures Risen(m, m', L, L', top, top', node)
    ensures node in L.span && node in L'.span && Width(L.span[node]) < Width(L'.span[node]) <= |L'.order|
  {
    hide Placed, Linked, Weighted, Stored, Risen;
    SteppedRises(m, m', L, L', top, top', g, node);
    Neighbours(m, L, top, node);
    Neighbours(m, L, top, m[node].parent);
    At(m, L, top, g);
    At(m', L', top', node);
  }

  /** The last rotation, over the root. */
  lemma ZigRises(m: Store, m': Store, L: Layout, L': Layout, top: Node, node: Node)
    requires Shaped(m, L, top) && node in L.span && node in m && m[node].parent == top && top in L.span
             && m'.Keys == m.Keys
    requires || (LeftTurn(m, m', top, node) && m[top].right == node && L' == TurnedLeft(L, top, node))
             || (RightTurn(m, m', top, node) && m[top].left == node && L' == TurnedRight(L, top, node))
    ensures Risen(m, m', L, L', top, node, node)
  {
    hide Placed, Linked;
    Neighbours(m, L, top, top);
    Neighbours(m, L, top, node);
  }

  lemma RisenTwice(m: Store, m1: Store, m2: Store, L: Layout, L1: Layout, L2: Layout, top: Node?, top1: Node?,
      top2: Node?, node: Node)
    requires Risen(m, m1, L, L1, top, top1, node) && Risen(m1, m2, L1, L2, top1, top2, node)
    requires top1 == node ==> top2 == node && SameLinks(m1, m2)
    requires Placed(L) && Placed(L1)
    ensures Risen(m, m2, L, L2, top, top2, node)
  {
    SamePlaces(L, L1);
    hide Placed;
  }

  lemma StillRisen(m: Store, m1: Store, m2: Store, L: Layout, L': Layout, top: Node?, top': Node?, node: Node)
    requires Risen(m, m1, L, L', top, top', node) && SameLinks(m1, m2)
    ensures Risen(m, m2, L, L', top, top', node)
  {
  }

  lemma RisenItself(m: Store, L: Layout, top: Node?, node: Node)
    requires Shaped(m, L, top) && node in L.span
    ensures Risen(m, m, L, L, top, top, node)
  {
    hide Placed, Linked;
    RootThere(m, L, top, node);
  }

  lemma ShapedIn(m: Store, L: Layout, top: Node?, changed: set<Node>)
    requires Ok(m, L, top, changed)
    ensures Shaped(m, L, top)
  {
    hide Placed, Linked, Weighted, Stored;
  }

  lemma Combine(m: Store, m1: Store, m2: Store, L: Layout, L1: Layout, L2: Layout, top: Node?, top1: Node?, top2: Node?,
      node: Node, changed: set<Node>)
    requires Shaped(m, L, top) && Ok(m1, L1, top1, changed)
    requires Risen(m, m1, L, L1, top, top1, node) && Risen(m1, m2, L1, L2, top1, top2, node)
    requires top1 == node ==> top2 == node && SameLinks(m1, m2)
    ensures Risen(m, m2, L, L2, top, top2, node)
  {
    hide Risen, Placed, Linked, Weighted, Stored;
    RisenTwice(m, m1, m2, L, L1, L2, top, top1, top2, node);
  }

  lemma RisenLens(S: set<Node>, m: Store, L: Layout, L': Layout, top: Node?, top': Node?, node: Node)
    requires Risen(m, Snap(S), L, L', top, top', node)
    ensures m.Keys == S && L'.order == L.order && forall n :: n in S ==> n.len == m[n].len
  {
    assert m.Keys == Snap(S).Keys == S;
    forall n | n in S ensures n.len == m[n].len {
      assert Snap(S)[n] == CellOf(n);
    }
  }

  lemma ChildrenOf(S: set<Node>, L: Layout, top: Node?, n: Node)
    requires Shaped(Snap(S), L, top) && L.span.Keys == S && n in S
    ensures L.span[n].lo <= L.span[n].at < L.span[n].hi
    ensures if n.left == null then L.span[n].lo == L.span[n].at
            else n.left in S && L.span[n.left].lo == L.span[n].lo && L.span[n.left].hi == L.span[n].at
    ensures if n.right == null then L.span[n].at + 1 == L.span[n].hi
            else n.right in S && L.span[n.right].lo == L.span[n].at + 1 && L.span[n.right].hi == L.span[n].hi
  {
    hide Placed, Linked;
    At(Snap(S), L, top, n);
  }

  /** In post-order, every weight below `node` becomes the length of the value there. */
  method ResetWeights(node: Node?, ghost S: set<Node>, ghost L: Layout, ghost top: Node?, ghost lo: int, ghost hi: int)
    requires Shaped(Snap(S), L, top) && Stored(Snap(S), L) && L.span.Keys == S
    requires if node == null then lo == hi else node in S && lo == L.span[node].lo && hi == L.span[node].hi
    modifies S
    ensures Snap(S) == Reset(old(Snap(S)), L, lo, hi)
    decreases hi - lo
  {
    hide Shaped, Stored, Reset;
    ghost var m := Snap(S);
    if node == null {
      ResetNothing(m, L, lo);
      return;
    }
    ghost var s := L.span[node];
    ChildrenOf(S, L, top, node);
    var left, right := node.left, node.right;
    ResetWeights(left, S, L, top, s.lo, s.at);
    ghost var m1 := Snap(S);
    ResetShaped(m, L, top, s.lo, s.at);
    ResetWeights(right, S, L, top, s.at + 1, s.hi);
    ghost var m2 := Snap(S);
    assert Placed(L) by { PlacedIn(m, L, top); }
    hide Placed;
    ResetAround(m, L, node);
    SetOwn(node, S);
  }

  lemma PlacedIn(m: Store, L: Layout, top: Node?)
    requires Shaped(m, L, top)
    ensures Placed(L)
  {
    hide Placed, Linked;
  }

  method SetOwn(node: Node, ghost S: set<Node>)
    requires node in S
    modifies node`weight
    ensures Snap(S) == old(Snap(S))[node := old(CellOf(node)).(weight := node.len)]
  {
    node.weight := node.len;
  }

  method ClearRight(node: Node, ghost S: set<Node>, ghost L: Layout, ghost top: Node?, ghost changed: set<Node>)
    requires Ok(Snap(S), L, top, changed) && L.span.Keys == S && node in S && Emptied(Snap(S), L, node, changed)
    modifies S
    ensures Ok(Snap(S), L, top, {}) && SameLinks(old(Snap(S)), Snap(S))
  {
    hide Placed, Linked, Weighted, Stored, Emptied;
    ghost var m, s := Snap(S), L.span[node];
    assert Shaped(m, L, top);
    ChildrenOf(S, L, top, node);
    CutOff(m, L, top, changed, node);
    hide Ok, Reset, Shaped, SameLinks;
    ResetLinks(m, L, s.at + 1, s.hi);
    ResetWeights(node.right, S, L, top, s.at + 1, s.hi);
    ghost var m1 := Snap(S);
    ReweighAll(node, S, L, top, {node});
    SameTwice(m, m1, Snap(S));
    assert {node} - {node} == {};
  }

  lemma RangeRisen(m: Store, m': Store, L: Layout, L': Layout, top: Node?, top': Node?, node: Node, left: Node,
      right: Node?, changed: set<Node>)
    requires Ok(m, L, top, changed) && Ok(m', L', top', changed) && Risen(m, m', L, L', top, top', node)
    requires Range(m, L, left, right, changed)
    ensures Range(m', L', left, right, changed)
  {
    hide Placed, Linked, Weighted, Stored, Range;
    RangeKept(m, m', L, L', left, right, changed);
  }

  lemma FullWidth(m: Store, L: Layout, left: Node, changed: set<Node>)
    requires left in L.span && Ok(m, L, left, changed) && Range(m, L, left, null, changed)
    ensures Emptied(m, L, left, changed)
  {
    hide Placed, Linked, Weighted, Stored, Range, Emptied;
    RootThere(m, L, left, left);
    RangeBelow(m, L, left, null, changed);
  }

  lemma Boundaries(m: Store, L: Layout, top: Node?, left: Node, right: Node?, changed: set<Node>)
    requires Ok(m, L, top, changed) && Range(m, L, left, right, changed)
    ensures left !in changed && (right != null ==> right !in changed)
  {
    hide Placed, Linked, Weighted, Stored;
    At(m, L, top, left);
    if right != null { At(m, L, top, right); }
  }

  lemma CloseBy(m: Store, m': Store, L: Layout, L': Layout, left: Node, right: Node, changed: set<Node>)
    requires Range(m, L, left, right, changed) && Risen(m, m', L, L', left, right, right)
    ensures Near(m', right, left)
  {
  }

  lemma KeptLens(m: Store, S: set<Node>)
    requires SameLinks(m, Snap(S)) && m.Keys == S
    ensures forall n :: n in S ==> n.len == m[n].len
  {
    forall n | n in S ensures n.len == m[n].len {
      assert Snap(S)[n] == CellOf(n);
    }
  }

  lemma RangeTurned(m: Store, m': Store, L: Layout, L': Layout, top: Node?, changed: set<Node>, left: Node, right: Node)
    requires Ok(m, L, top, changed) && Ok(m', L', top, changed) && Range(m, L, left, right, changed)
    requires L'.order == L.order && L'.span.Keys == L.span.Keys && m'.Keys == m.Keys
    requires forall n :: n in m ==> n in m' && m'[n].len == m[n].len
    ensures Range(m', L', left, right, changed)
  {
    hide Placed, Linked, Weighted, Stored, Range;
    RangeKept(m, m', L, L', left, right, changed);
  }

  lemma PlacedOf(m: Store, L: Layout, top: Node?, changed: set<Node>)
    requires Ok(m, L, top, changed)
    ensures Placed(L)
  {
    hide Placed, Linked, Weighted, Stored;
  }

  lemma LensBack(S: set<Node>, m: Store)
    requires m.Keys == S && forall n :: n in m ==> n in Snap(S) && Snap(S)[n].len == m[n].len
    ensures forall n :: n in S ==> n.len == m[n].len
  {
    forall n | n in S ensures n.len == m[n].len {
      assert Snap(S)[n] == CellOf(n);
    }
  }

  method PutAbove(t: Tree, prev: Node, node: Node)
    requires prev != node && prev.left != prev && prev.right != prev && prev.left != node && prev.right != node
    requires prev.left != null ==> prev.left != prev.right
    modifies t`root, prev, prev.right, node
    ensures t.root == node
    ensures var right := old(prev.right);
            && CellOf(prev) == old(CellOf(prev)).(parent := node, right := null, weight := prev.weight)
            && prev.weight == prev.LeftWeight() + prev.len
            && node.left == prev && node.right == right && node.parent == old(node.parent) && node.len == old(node.len)
            && node.weight == prev.weight + node.len + node.RightWeight()
            && (right != null ==> CellOf(right) == old(CellOf(prev.right)).(parent := node))
  {
    t.root := node;
    node.right := prev.right;
    if prev.right != null {
      prev.right.parent := node;
    }
    node.left := prev;
    prev.parent := node;
    prev.right := null;
    UpdateWeight(prev);
    UpdateWeight(node);
  }

  method Graft(t: Tree, prev: Node, node: Node, ghost S: set<Node>, ghost L: Layout, ghost changed: set<Node>)
    requires Ok(Snap(S), L, prev, changed) && L.span.Keys == S && prev in S && node !in S && node.parent == null
    modifies t`root, S, node
    ensures t.root == node && node.len == old(node.len) && forall n :: n in S ==> n.len == old(n.len)
    ensures 0 <= L.span[prev].at < |L.order| && Ok(Snap(S + {node}), Grown(L, prev, node), node, changed)
  {
    hide Placed, Linked, Weighted, Stored;
    ghost var m := Snap(S);
    Neighbours(m, L, prev, prev);
    hide Ok;
    PutAbove(t, prev, node);
    ghost var m' := Snap(S + {node});
    assert m'[prev] == CellOf(prev) && m'[node] == CellOf(node);
    assert Grafted(m, m', L, prev, node);
    hide Grafted;
    GraftedOk(m, m', L, prev, node, changed);
  }

  lemma SamePosition(m: Store, m': Store, L: Layout, L': Layout, top: Node?, top': Node?, changed: set<Node>,
      changed': set<Node>, n: Node)
    requires Ok(m, L, top, changed) && Ok(m', L', top', changed') && L'.order == L.order && n in L.span && n in L'.span
    ensures L'.span[n].at == L.span[n].at && Placed(L')
  {
    hide Linked, Weighted, Stored;
  }

  /** `t` is `s` with `x` right after `prev`, which stands at one place in `s`. */
  ghost predicate InsertedAfter(s: seq<Node>, t: seq<Node>, prev: Node, x: Node) {
    && prev in s
    && forall i :: 0 <= i < |s| && s[i] == prev ==> t == s[..i + 1] + [x] + s[i + 1..]
  }

  lemma OrderGrown(L: Layout, L': Layout, prev: Node, x: Node)
    requires Placed(L) && prev in L.span && 0 <= L.span[prev].at < |L.order|
    requires L'.order == L.order[..L.span[prev].at + 1] + [x] + L.order[L.span[prev].at + 1..]
    ensures InsertedAfter(L.order, L'.order, prev, x)
  {
    PlacedAt(L, prev);
    OnePlace(L, prev);
  }

  /** No value changed its length. */
  ghost predicate SameLengths(m: Store, m': Store) {
    forall n :: n in m ==> n in m' && m'[n].len == m[n].len
  }

  lemma LengthsOf(S: set<Node>, m: Store)
    requires m.Keys <= S && forall n :: n in m ==> n.len == m[n].len
    ensures SameLengths(m, Snap(S))
  {
    forall n | n in m ensures n in Snap(S) && Snap(S)[n].len == m[n].len {
      assert n in S;
    }
  }

  method RightmostOf(top: Node, ghost S: set<Node>, ghost L: Layout) returns (node: Node)
    requires Shaped(Snap(S), L, top) && L.span.Keys == S && top in S
    ensures node in S && L.span[node].at == |L.order| - 1
  {
    hide Shaped;
    RootThere(Snap(S), L, top, top);
    node := top;
    while node.right != null
      invariant node in S && L.span[node].hi == |L.order|
      decreases Width(L.span[node])
    {
      ChildrenOf(S, L, top, node);
      ChildrenOf(S, L, top, node.right);
      node := node.right;
    }
    ChildrenOf(S, L, top, node);
  }

  method CutLinks(node: Node, ghost S: set<Node>)
    requires node in S && (node.left != null ==> node.left in S && node.left != node)
    requires (node.right != null ==> node.right in S && node.right != node)
    modifies S
    ensures Snap(S) == CutBelow(old(Snap(S)), node)
  {
    if node.left != null {
      node.left.parent := null;
    }
    if node.right != null {
      node.right.parent := null;
    }
  }

  /** The two subtrees of the root `node` as trees of their own. */
  method Halve(node: Node, ghost S: set<Node>, ghost L: Layout) returns (left: Tree, right: Tree)
    requires Ok(Snap(S), L, node, {}) && L.span.Keys == S && node in S
    modifies S
    ensures 0 <= L.span[node].at < |L.order| && fresh(left) && fresh(right) && left != right
    ensures left.layout == LeftPart(L, L.span[node].at) && right.layout == RightPart(L, L.span[node].at)
    ensures left.Nodes() <= S && right.Nodes() <= S && left.Valid({}) && right.Valid({})
    ensures SameLengths(old(Snap(S)), Snap(S))
  {
    hide Placed, Linked, Weighted, Stored;
    ghost var m, i := Snap(S), L.span[node].at;
    Neighbours(m, L, node, node);
    SplitOk(m, L, node, {});
    hide Ok;
    ghost var A, B := LeftPart(L, i), RightPart(L, i);
    CutLinks(node, S);
    left := new Tree(node.left, A);
    right := new Tree(node.right, B);
    CutKeeps(m, Snap(S), node);
    Narrow(S, A, node.left, {});
    Narrow(S, B, node.right, {});
  }

  lemma CutKeeps(m: Store, m': Store, x: Node)
    requires x in m && m' == CutBelow(m, x)
    ensures SameLengths(m, m')
    ensures x in m' && m'[x].left == m[x].left && m'[x].right == m[x].right
  {
  }

  /** A tree's own nodes are all it needs. */
  lemma Narrow(S: set<Node>, L: Layout, top: Node?, changed: set<Node>)
    requires Ok(Snap(S), L, top, changed) && L.span.Keys <= S
    ensures Ok(Snap(L.span.Keys), L, top, changed)
  {
    hide Ok;
    SameOk(Snap(S), Snap(L.span.Keys), L, top, changed);
  }

  method LinkRight(x: Node, b: Node?, ghost S: set<Node>)
    requires x in S && (b != null ==> b in S && b != x)
    modifies S
    ensures var m := old(Snap(S)); Snap(S) == WithParent(m, b, x)[x := m[x].(right := b)]
  {
    x.right := b;
    if b != null {
      b.parent := x;
    }
  }

  lemma LinkedRight(m: Store, m': Store, L: Layout, x: Node, B: Layout, b: Node?)
    requires Ok(m, L, x, {}) && x in L.span && 0 <= L.span[x].at == |L.order| - 1 && Ok(m, B, b, {})
    requires L.span.Keys !! B.span.Keys && x in m && m' == WithParent(m, b, x)[x := m[x].(right := b)]
    ensures Ok(m', Concat(L, x, B), x, {x})
  {
    hide Placed, Linked, Weighted, Stored, Appended;
    RootIn(m, B, b);
    var m2 := m'[x := m'[x].(weight := WeightAt(m, m[x].left) + m[x].len + WeightAt(m, b))];
    LinkedAppends(m, m2, L, x, B, b);
    hide Ok;
    AppendedOk(m, m2, L, x, B, b);
    PlacedOf(m, L, x, {});
    ConcatOrder(L, x, B);
    RootInDoubt(m', m2, Concat(L, x, B), x);
  }

  lemma LinkedAppends(m: Store, m': Store, L: Layout, x: Node, B: Layout, b: Node?)
    requires x in L.span && x in m && L.span.Keys !! B.span.Keys && (b != null ==> b in B.span)
    requires m' == WithParent(m, b, x)[
               x := m[x].(right := b, weight := WeightAt(m, m[x].left) + m[x].len + WeightAt(m, b))]
    ensures Appended(m, m', L, x, B, b)
  {
  }

  lemma RootIn(m: Store, L: Layout, top: Node?)
    requires Linked(m, L, top)
    ensures RootOk(L, top)
  {
  }

  /**
   Hangs the tree `right` on the right of the root of `left`, its last node; only the weight of the
   root is left to do.
   */
  method HangRight(left: Tree, right: Tree) returns (ghost L: Layout)
    requires left.Valid({}) && right.Valid({}) && left.Nodes() !! right.Nodes() && left != right
    requires left.root != null && left.root in left.Nodes() && left.Position(left.root) == |left.Sequence()| - 1
    modifies left.Nodes(), right.Nodes()
    ensures L.order == left.Sequence() + right.Sequence() && L.span.Keys == left.Nodes() + right.Nodes()
    ensures Ok(Snap(left.Nodes() + right.Nodes()), L, left.root, {left.root})
    ensures SameLengths(old(Snap(left.Nodes() + right.Nodes())), Snap(left.Nodes() + right.Nodes()))
  {
    hide Ok;
    ghost var A, B, x, b := left.layout, right.layout, left.root, right.root;
    ghost var S := A.span.Keys + B.span.Keys;
    ghost var m := Snap(S);
    Widen(A.span.Keys, S, A, x, {});
    Widen(B.span.Keys, S, B, b, {});
    PlacedOf(m, A, x, {});
    RootInside(m, B, b, {});
    PositionBounds(A, x);
    hide Placed;
    LinkRight(left.root, right.root, S);
    LinkedRight(m, Snap(S), A, x, B, b);
    ConcatOrder(A, x, B);
    L := Concat(A, x, B);
  }

  lemma PositionBounds(L: Layout, n: Node)
    requires Placed(L) && n in L.span
    ensures 0 <= L.span[n].at < |L.order|
  {
  }

  lemma Widen(S: set<Node>, T: set<Node>, L: Layout, top: Node?, changed: set<Node>)
    requires Ok(Snap(S), L, top, changed) && L.span.Keys == S && S <= T
    ensures Ok(Snap(T), L, top, changed)
  {
    hide Ok;
    SameOk(Snap(S), Snap(T), L, top, changed);
  }

  lemma RootInside(m: Store, L: Layout, top: Node?, changed: set<Node>)
    requires Ok(m, L, top, changed)
    ensures if top == null then L.order == [] && L.span.Keys == {} else top in L.span
  {
    hide Linked, Weighted, Stored;
    RootIn(m, L, top);
    if top == null {
      forall n | n in L.span ensures false {
        PlacedAt(L, n);
      }
    }
  }

  /** The left tree followed by the right tree, as one; only the weight of its root is left to do. */
  method JoinHalves(left: Tree, right: Tree) returns (top: Node?, ghost L: Layout)
    requires left.Valid({}) && right.Valid({}) && left.Nodes() !! right.Nodes() && left != right
    modifies left, left.Nodes(), right.Nodes()
    ensures L.order == old(left.Sequence()) + right.Sequence()
    ensures L.span.Keys == old(left.Nodes()) + right.Nodes() && right.layout == old(right.layout)
    ensures Ok(Snap(L.span.Keys), L, top, Including({}, top))
    ensures SameLengths(old(Snap(left.Nodes() + right.Nodes())), Snap(L.span.Keys))
  {
    hide Ok;
    ghost var S := left.Nodes() + right.Nodes();
    ghost var m := Snap(S);
    RootInside(Snap(left.Nodes()), left.layout, left.root, {});
    RootInside(Snap(right.Nodes()), right.layout, right.root, {});
    if left.root != null {
      left.SplayLast();
      top := left.root;
      assert {left.root} == Including({}, top);
      LengthsOf(S, m);
      ghost var m1 := Snap(S);
      L := HangRight(left, right);
      LengthsTwice(m, m1, Snap(S));
    } else {
      top := right.root;
      L := right.layout;
      assert S == right.Nodes();
      Weaken(Snap(S), L, top, {}, Including({}, top));
      LengthsOf(S, m);
    }
  }

  lemma LengthsTwice(m: Store, m1: Store, m2: Store)
    requires SameLengths(m, m1) && SameLengths(m1, m2)
    ensures SameLengths(m, m2)
  {
  }

  /** `t` is `s` without `x`, which stands at one place in `s`. */
  ghost predicate RemovedFrom(s: seq<Node>, t: seq<Node>, x: Node) {
    && x in s
    && forall i :: 0 <= i < |s| && s[i] == x ==> t == s[..i] + s[i + 1..]
  }

  lemma OrderShrunk(L: Layout, x: Node, t: seq<Node>)
    requires Placed(L) && x in L.span && 0 <= L.span[x].at < |L.order|
    requires t == LeftPart(L, L.span[x].at).order + RightPart(L, L.span[x].at).order
    ensures RemovedFrom(L.order, t, x)
  {
    PlacedAt(L, x);
    OnePlace(L, x);
  }

  lemma PartUnion(L: Layout, x: Node)
    requires Placed(L) && x in L.span && 0 <= L.span[x].at < |L.order|
    ensures LeftPart(L, L.span[x].at).span.Keys + RightPart(L, L.span[x].at).span.Keys == L.span.Keys - {x}
    ensures LeftPart(L, L.span[x].at).span.Keys !! RightPart(L, L.span[x].at).span.Keys
  {
    hide Placed, LeftPart, RightPart;
    PartKeys(L, x);
  }

  /** What is left and what is right of the root `node` become one tree, still to be weighed at its root. */
  method CloseGap(node: Node, ghost S: set<Node>, ghost L: Layout) returns (top: Node?, ghost L': Layout)
    requires Ok(Snap(S), L, node, {}) && L.span.Keys == S && node in S
    modifies S
    ensures RemovedFrom(L.order, L'.order, node) && L'.span.Keys == S - {node}
    ensures Ok(Snap(S - {node}), L', top, Including({}, top))
    ensures SameLengths(old(Snap(S)), Snap(S))
  {
    ghost var m, R := Snap(S), S - {node};
    hide Ok, SameLengths;
    PlacedOf(m, L, node, {});
    PositionBounds(L, node);
    hide Placed;
    PartUnion(L, node);
    hide LeftPart, RightPart;
    var left, right := Halve(node, S, L);
    ghost var m1, r1 := Snap(S), Snap(R);
    top, L' := JoinHalves(left, right);
    OrderShrunk(L, node, L'.order);
    LengthsBut(m1, Snap(S), r1, Snap(R), node);
    LengthsTwice(m, m1, Snap(S));
  }

  lemma LengthsBut(m: Store, m': Store, r: Store, r': Store, x: Node)
    requires SameLengths(r, r') && x in m && x in m' && m'[x] == m[x] && m'.Keys == m.Keys
             && r'.Keys == r.Keys == m.Keys - {x}
    requires (forall n :: n in r ==> r[n] == m[n]) && (forall n :: n in r' ==> r'[n] == m'[n])
    ensures SameLengths(m, m')
  {
    forall n | n in m && n != x ensures m'[n].len == m[n].len {
      assert n in r && n in r';
    }
  }

  /** Takes the root `node` out and leaves it without links. */
  method Uproot(node: Node, ghost S: set<Node>, ghost L: Layout) returns (top: Node?, ghost L': Layout)
    requires Ok(Snap(S), L, node, {}) && L.span.Keys == S && node in S
    modifies S
    ensures RemovedFrom(L.order, L'.order, node) && L'.span.Keys == S - {node}
    ensures Ok(Snap(S - {node}), L', top, {}) && !node.HasLinks()
    ensures SameLengths(old(Snap(S)), Snap(S))
  {
    ghost var m, R := Snap(S), S - {node};
    hide Ok, SameLengths, RemovedFrom;
    top, L' := CloseGap(node, S, L);
    ghost var m1 := Snap(S);
    Finish(node, top, R, L');
    LengthsOf(S, m1);
    LengthsTwice(m, m1, Snap(S));
  }

  method Finish(node: Node, top: Node?, ghost R: set<Node>, ghost L: Layout)
    requires node !in R && L.span.Keys == R && Ok(Snap(R), L, top, Including({}, top))
    modifies node, R
    ensures Ok(Snap(R), L, top, {}) && !node.HasLinks()
    ensures node.len == old(node.len) && forall n :: n in R ==> n.len == old(n.len)
  {
    hide Ok, SameLinks;
    Unlink(node);
    if top != null {
      ghost var m := Snap(R);
      RootInside(m, L, top, Including({}, top));
      assert {} + {top} == {top} == Including({}, top);
      ReweighUp(top, R, L, top, {});
      KeptLens(m, R);
    }
  }

  method Unlink(node: Node)
    modifies node
    ensures !node.HasLinks() && node.len == old(node.len)
  {
    node.parent := null;
    node.right := null;
    node.left := null;
  }

  lemma SingleOk(node: Node)
    requires !node.HasLinks() && node.weight == node.len
    ensures Ok(Snap({node}), Joined(Nothing(), node, Nothing()), node, {})
    ensures Joined(Nothing(), node, Nothing()).order == [node] && Joined(Nothing(), node, Nothing()).span.Keys == {node}
  {
    var m := Snap({node});
    hide Ok, Joined;
    NothingOk(m, {});
    assert Hung(m, m, Nothing(), null, node, Nothing(), null);
    JoinedOk(m, m, Nothing(), null, node, Nothing(), null, {});
    JoinedKeys(Nothing(), node, Nothing());
  }

  lemma Total(m: Store, L: Layout, top: Node?)
    requires Ok(m, L, top, {})
    ensures Stored(m, L) && WeightAt(m, top) == Prefix(Lens(m, L), |L.order|)
  {
    assert Stored(m, L);
    assert Clean(L, {}, 0, |L.order|);
    hide Ok;
    TopWeight(m, L, top, {});
  }

  lemma RootIndex(S: set<Node>, L: Layout, x: Node)
    requires Ok(Snap(S), L, x, {}) && L.span.Keys == S && x in S
    ensures 0 <= L.span[x].at <= |L.order| && Stored(Snap(S), L)
    ensures x.LeftWeight() == Before(Snap(S), L, L.span[x].at)
  {
    hide Placed, Linked, Weighted, Stored, Lens;
    var m := Snap(S);
    At(m, L, x, x);
    RootThere(m, L, x, x);
    ChildWeights(m, L, x, {}, x);
    assert Clean(L, {}, L.span[x].lo, L.span[x].at);
    if x.left != null { assert m[x.left] == CellOf(x.left); }
  }

  // ---- Finding by position ------------------------------------------------------------------

  lemma {:induction false} BeforeGrows(m: Store, L: Layout, i: int, j: int)
    requires Stored(m, L) && 0 <= i <= j <= |L.order|
    ensures Before(m, L, i) <= Before(m, L, j)
    decreases j - i
  {
    if i < j {
      BeforeGrows(m, L, i, j - 1);
    }
  }

  /** All values before place `i` end before `index`. */
  ghost predicate EndBefore(m: Store, L: Layout, i: int, index: int)
    requires Stored(m, L) && 0 <= i <= |L.order|
  {
    forall j :: 0 < j <= i ==> Before(m, L, j) < index
  }

  lemma EndsBefore(m: Store, L: Layout, i: int, index: int)
    requires Stored(m, L) && 0 <= i <= |L.order| && Before(m, L, i) < index
    ensures EndBefore(m, L, i, index)
  {
    forall j | 0 < j <= i ensures Before(m, L, j) < index {
      BeforeGrows(m, L, j, i);
    }
  }

  /** The weights around `n`, read off the heap, are lengths of stretches. */
  lemma WeightsOf(S: set<Node>, L: Layout, top: Node?, n: Node)
    requires Ok(Snap(S), L, top, {}) && L.span.Keys == S && n in S
    ensures 0 <= L.span[n].lo <= L.span[n].at < L.span[n].hi <= |L.order| && Stored(Snap(S), L)
    ensures n.LeftWeight() == Before(Snap(S), L, L.span[n].at) - Before(Snap(S), L, L.span[n].lo)
    ensures n.weight == Before(Snap(S), L, L.span[n].hi) - Before(Snap(S), L, L.span[n].lo)
    ensures Before(Snap(S), L, L.span[n].at + 1) == Before(Snap(S), L, L.span[n].at) + n.len
    ensures if n.left == null then L.span[n].lo == L.span[n].at
            else n.left in S && L.span[n.left].lo == L.span[n].lo && L.span[n.left].hi == L.span[n].at
    ensures if n.right == null then L.span[n].at + 1 == L.span[n].hi
            else n.right in S && L.span[n.right].lo == L.span[n].at + 1 && L.span[n.right].hi == L.span[n].hi
  {
    hide Placed, Linked, Weighted, Stored, Lens;
    var m := Snap(S);
    At(m, L, top, n);
    ChildWeights(m, L, top, {}, n);
    WeighedAt(m, L, {}, n);
    if n.left != null { assert m[n.left] == CellOf(n.left); }
  }

  method DescendForText(top: Node, index: int, ghost S: set<Node>, ghost L: Layout) returns (node: Node, offset: int)
    requires Ok(Snap(S), L, top, {}) && L.span.Keys == S && top in S
    ensures node in S && 0 <= L.span[node].at < |L.order| && Stored(Snap(S), L)
    ensures Before(Snap(S), L, L.span[node].at) + offset == index && EndBefore(Snap(S), L, L.span[node].at, index)
    ensures node.len < offset <==> Before(Snap(S), L, |L.order|) < index
  {
    hide Ok, Before, Stored;
    ghost var m := Snap(S);
    RootSpan(m, L, top);
    node := top;
    offset := index;
    WeightsOf(S, L, top, node);
    while true
      invariant node in S && Stored(m, L) && 0 <= L.span[node].lo < L.span[node].hi <= |L.order|
      invariant offset == index - Before(m, L, L.span[node].lo)
      invariant EndBefore(m, L, L.span[node].lo, index)
      invariant L.span[node].hi == |L.order| || index <= Before(m, L, L.span[node].hi)
      decreases Width(L.span[node])
    {
      WeightsOf(S, L, top, node);
      ghost var s := L.span[node];
      if node.left != null && offset <= node.LeftWeight() {
        WeightsOf(S, L, top, node.left);
        node := node.left;
      } else if node.right != null && node.LeftWeight() + node.len < offset {
        WeightsOf(S, L, top, node.right);
        EndsBefore(m, L, s.at + 1, index);
        offset := offset - (node.LeftWeight() + node.len);
        node := node.right;
      } else {
        if s.lo < s.at { EndsBefore(m, L, s.at, index); }
        BeforeGrows(m, L, s.at + 1, |L.order|);
        offset := offset - node.LeftWeight();
        break;
      }
    }
  }

  lemma RootSpan(m: Store, L: Layout, top: Node)
    requires Ok(m, L, top, {}) && top in L.span
    ensures L.span[top].lo == 0 && L.span[top].hi == |L.order| && Stored(m, L) && Before(m, L, 0) == 0
  {
    hide Placed, Linked, Weighted, Stored;
    RootThere(m, L, top, top);
  }

  method DescendForArray(top: Node, index: int, ghost S: set<Node>, ghost L: Layout) returns (node: Node)
    requires Ok(Snap(S), L, top, {}) && L.span.Keys == S && top in S
    requires 0 <= index < top.weight
    ensures node in S && 0 <= L.span[node].at < |L.order| && Stored(Snap(S), L)
    ensures Before(Snap(S), L, L.span[node].at) <= index < Before(Snap(S), L, L.span[node].at + 1)
  {
    hide Ok, Before, Stored;
    ghost var m := Snap(S);
    RootSpan(m, L, top);
    node := top;
    var rest := index;
    WeightsOf(S, L, top, node);
    while true
      invariant node in S && Stored(m, L) && 0 <= L.span[node].lo < L.span[node].hi <= |L.order|
      invariant rest == index - Before(m, L, L.span[node].lo)
      invariant Before(m, L, L.span[node].lo) <= index < Before(m, L, L.span[node].hi)
      decreases Width(L.span[node])
    {
      WeightsOf(S, L, top, node);
      if rest < node.LeftWeight() {
        WeightsOf(S, L, top, node.left);
        node := node.left;
      } else if node.right != null && node.LeftWeight() + node.len <= rest {
        WeightsOf(S, L, top, node.right);
        rest := rest - (node.LeftWeight() + node.len);
        node := node.right;
      } else {
        break;
      }
    }
  }

  datatype Found = Nowhere | OutOfIndex | Hit(node: Node, offset: int)

  lemma StoredOf(m: Store, L: Layout, top: Node?)
    requires Ok(m, L, top, {})
    ensures Stored(m, L)
  {
  }

  /** Positions and lengths are the same before and after a splay. */
  lemma SameIndex(m: Store, m': Store, L: Layout, L': Layout, top: Node?, top': Node?, node: Node, index: int)
    requires Ok(m, L, top, {}) && Ok(m', L', top', {}) && Risen(m, m', L, L', top, top', node)
    ensures Stored(m, L) && Stored(m', L') && L'.order == L.order && node in L.span && node in L'.span
    ensures L'.span[node].at == L.span[node].at && 0 <= L.span[node].at < |L.order|
    ensures Lens(m', L') == Lens(m, L)
    ensures forall i :: 0 <= i <= |L.order| ==> Before(m', L', i) == Before(m, L, i)
    ensures EndBefore(m, L, L.span[node].at, index) ==> EndBefore(m', L', L.span[node].at, index)
  {
    SamePosition(m, m', L, L', top, top', {}, {}, node);
    PositionBounds(L, node);
    StoredOf(m, L, top);
    hide Ok, Placed;
    SameLens(m, m', L, L');
  }

  lemma Slices<T>(s: seq<T>, lo: int, i: int, hi: int)
    requires 0 <= lo <= i < hi <= |s|
    ensures s[lo..hi] == s[lo..i] + [s[i]] + s[i + 1..hi]
  {
  }

  /** In-order traversal of the subtree `node`. */
  method Traverse(node: Node?, ghost S: set<Node>, ghost L: Layout, ghost top: Node?, ghost lo: int, ghost hi: int)
    returns (nodes: seq<Node>)
    requires Shaped(Snap(S), L, top) && L.span.Keys == S && 0 <= lo <= hi <= |L.order|
    requires if node == null then lo == hi else node in S && lo == L.span[node].lo && hi == L.span[node].hi
    ensures nodes == L.order[lo..hi]
    decreases hi - lo
  {
    hide Shaped, Placed;
    if node == null {
      return [];
    }
    PlacedIn(Snap(S), L, top);
    PlacedAt(L, node);
    ChildrenOf(S, L, top, node);
    ghost var i := L.span[node].at;
    var left := Traverse(node.left, S, L, top, lo, i);
    var right := Traverse(node.right, S, L, top, i + 1, hi);
    nodes := left + [node] + right;
    Slices(L.order, lo, i, hi);
  }

  class Tree {
    var root: Node?
    ghost var layout: Layout

    constructor (root: Node?, ghost layout: Layout)
      ensures this.root == root && this.layout == layout
    {
      this.root := root;
      this.layout := layout;
    }

    ghost function Nodes(): (s: set<Node>)
      reads this
    {
      layout.span.Keys
    }

    ghost function Sequence(): (s: seq<Node>)
      reads this
    {
      layout.order
    }

    ghost predicate Valid(changed: set<Node>)
      reads this, Nodes()
    {
      Ok(Snap(Nodes()), layout, root, changed)
    }

    method RotateLeft(pivot: Node, ghost changed: set<Node>)
      requires Valid(changed) && pivot in Nodes() && pivot.parent != null && pivot.parent.right == pivot
      modifies this, Nodes()
      ensures old(pivot.parent) in old(Nodes()) && layout == TurnedLeft(old(layout), old(pivot.parent), pivot)
      ensures Nodes() == old(Nodes())
      ensures Valid(changed) && LeftTurn(old(Snap(Nodes())), Snap(Nodes()), old(pivot.parent), pivot)
      ensures root == if old(pivot.parent.parent) == null then pivot else old(root)
    {
      ghost var S, L := Nodes(), TurnedLeft(layout, pivot.parent, pivot);
      hide Ok, LeftTurn, TurnedLeft;
      assert L.span.Keys == S;
      CarryLeft(this, pivot, S, layout, changed);
      Relay(L, S, changed);
    }

    method RotateRight(pivot: Node, ghost changed: set<Node>)
      requires Valid(changed) && pivot in Nodes() && pivot.parent != null && pivot.parent.left == pivot
      modifies this, Nodes()
      ensures old(pivot.parent) in old(Nodes()) && layout == TurnedRight(old(layout), old(pivot.parent), pivot)
      ensures Nodes() == old(Nodes())
      ensures Valid(changed) && RightTurn(old(Snap(Nodes())), Snap(Nodes()), old(pivot.parent), pivot)
      ensures root == if old(pivot.parent.parent) == null then pivot else old(root)
    {
      ghost var S, L := Nodes(), TurnedRight(layout, pivot.parent, pivot);
      hide Ok, RightTurn, TurnedRight;
      assert L.span.Keys == S;
      CarryRight(this, pivot, S, layout, changed);
      Relay(L, S, changed);
    }

    /** zig-zig, both links on the left. */
    method ZigZigLeft(node: Node, ghost g: Node, ghost changed: set<Node>)
      requires Valid(changed) && node in Nodes() && node.parent != null && node.parent.left == node
      requires node.parent.parent == g && g.left == node.parent
      modifies this, Nodes()
      ensures Valid(changed) && Nodes() == old(Nodes())
      ensures Stepped(old(Snap(Nodes())), Snap(Nodes()), old(layout), layout, g, node)
      ensures root == if old(g.parent) == null then node else old(root)
    {
      hide Ok;
      ghost var S, m, L, p := Nodes(), Snap(Nodes()), layout, node.parent;
      FamilyOf(S, L, root, changed, node);
      FamilyOf(S, L, root, changed, p);
      FamilyOf(S, L, root, changed, g);
      RotateRight(node.parent, changed);
      ghost var m1, L1 := Snap(S), layout;
      assert m1[p] == CellOf(p);
      FamilyOf(S, L1, root, changed, p);
      FamilyOf(S, L1, root, changed, node);
      RotateRight(node, changed);
    }

    /** zig-zig, both links on the right. */
    method ZigZigRight(node: Node, ghost g: Node, ghost changed: set<Node>)
      requires Valid(changed) && node in Nodes() && node.parent != null && node.parent.right == node
      requires node.parent.parent == g && g.right == node.parent
      modifies this, Nodes()
      ensures Valid(changed) && Nodes() == old(Nodes())
      ensures Stepped(old(Snap(Nodes())), Snap(Nodes()), old(layout), layout, g, node)
      ensures root == if old(g.parent) == null then node else old(root)
    {
      hide Ok;
      ghost var S, m, L, p := Nodes(), Snap(Nodes()), layout, node.parent;
      FamilyOf(S, L, root, changed, node);
      FamilyOf(S, L, root, changed, p);
      FamilyOf(S, L, root, changed, g);
      RotateLeft(node.parent, changed);
      ghost var m1, L1 := Snap(S), layout;
      assert m1[p] == CellOf(p);
      FamilyOf(S, L1, root, changed, p);
      FamilyOf(S, L1, root, changed, node);
      RotateLeft(node, changed);
    }

    /** zig-zag, first link on the left. */
    method ZigZagLeft(node: Node, ghost g: Node, ghost changed: set<Node>)
      requires Valid(changed) && node in Nodes() && node.parent != null && node.parent.right == node
      requires node.parent.parent == g && g.left == node.parent
      modifies this, Nodes()
      ensures Valid(changed) && Nodes() == old(Nodes())
      ensures Stepped(old(Snap(Nodes())), Snap(Nodes()), old(layout), layout, g, node)
      ensures root == if old(g.parent) == null then node else old(root)
    {
      hide Ok;
      ghost var S, m, L, p := Nodes(), Snap(Nodes()), layout, node.parent;
      FamilyOf(S, L, root, changed, node);
      FamilyOf(S, L, root, changed, p);
      FamilyOf(S, L, root, changed, g);
      RotateLeft(node, changed);
      ghost var m1, L1 := Snap(S), layout;
      assert m1[node] == CellOf(node) && m1[g] == CellOf(g);
      FamilyOf(S, L1, root, changed, node);
      FamilyOf(S, L1, root, changed, g);
      RotateRight(node, changed);
    }

    /** zig-zag, first link on the right. */
    method ZigZagRight(node: Node, ghost g: Node, ghost changed: set<Node>)
      requires Valid(changed) && node in Nodes() && node.parent != null && node.parent.left == node
      requires node.parent.parent == g && g.right == node.parent
      modifies this, Nodes()
      ensures Valid(changed) && Nodes() == old(Nodes())
      ensures Stepped(old(Snap(Nodes())), Snap(Nodes()), old(layout), layout, g, node)
      ensures root == if old(g.parent) == null then node else old(root)
    {
      hide Ok;
      ghost var S, m, L, p := Nodes(), Snap(Nodes()), layout, node.parent;
      FamilyOf(S, L, root, changed, node);
      FamilyOf(S, L, root, changed, p);
      FamilyOf(S, L, root, changed, g);
      RotateRight(node, changed);
      ghost var m1, L1 := Snap(S), layout;
      assert m1[node] == CellOf(node) && m1[g] == CellOf(g);
      FamilyOf(S, L1, root, changed, node);
      FamilyOf(S, L1, root, changed, g);
      RotateLeft(node, changed);
    }

    /** Two rotations of `node`, over its parent and grandparent. */
    method DoubleRotate(node: Node, ghost changed: set<Node>)
      requires Valid(changed) && node in Nodes() && node.parent != null && node.parent.parent != null
      modifies this, Nodes()
      ensures Valid(changed) && Nodes() == old(Nodes())
      ensures Risen(old(Snap(Nodes())), Snap(Nodes()), old(layout), layout, old(root), root, node)
      ensures Width(old(layout.span[node])) < Width(layout.span[node]) <= |layout.order|
    {
      hide Ok;
      ghost var S, m, L, top, g := Nodes(), Snap(Nodes()), layout, root, node.parent.parent;
      FamilyOf(S, L, top, changed, node);
      FamilyOf(S, L, top, changed, node.parent);
      FamilyOf(S, L, top, changed, g);
      hide Stepped, Risen;
      if IsLeftChild(node.parent) && IsRightChild(node) {
        ZigZagLeft(node, g, changed);
      } else if IsRightChild(node.parent) && IsLeftChild(node) {
        ZigZagRight(node, g, changed);
      } else if IsLeftChild(node.parent) && IsLeftChild(node) {
        ZigZigLeft(node, g, changed);
      } else {
        ZigZigRight(node, g, changed);
      }
      Rises(m, Snap(S), L, layout, top, root, g, node, changed);
    }

    /** The last step of a splay: at most one rotation, and the weight of the new root. */
    method Zig(node: Node, ghost changed: set<Node>)
      requires Valid(changed) && node in Nodes() && (node.parent == null || node.parent.parent == null)
      modifies this, Nodes()
      ensures Valid(changed - {node}) && Nodes() == old(Nodes()) && root == node
      ensures Risen(old(Snap(Nodes())), Snap(Nodes()), old(layout), layout, old(root), root, node)
      ensures old(root) == node ==> SameLinks(old(Snap(Nodes())), Snap(Nodes()))
    {
      hide Ok;
      ghost var S, m, L, top := Nodes(), Snap(Nodes()), layout, root;
      FamilyOf(S, L, top, changed, node);
      if node.parent != null { FamilyOf(S, L, top, changed, node.parent); }
      ShapedIn(m, L, top, changed);
      RisenItself(m, L, top, node);
      hide Risen, LeftTurn, RightTurn, Shaped;
      if IsLeftChild(node) {
        RotateRight(node, changed);
        ZigRises(m, Snap(S), L, layout, top, node);
      } else if IsRightChild(node) {
        RotateLeft(node, changed);
        ZigRises(m, Snap(S), L, layout, top, node);
      }
      ghost var m1 := Snap(S);
      UpdateTreeWeight(node, changed);
      StillRisen(m, m1, Snap(S), L, layout, top, root, node);
    }

    /**
     Moves `node` to the root. The sequence stays; every weight not above a changed length is
     right before and after; and a root to the left of `node` ends up at most two links below it.
     */
    method Splay(node: Node?, ghost changed: set<Node>)
      requires Valid(changed) && (node != null ==> node in Nodes())
      modifies this, Nodes()
      ensures Nodes() == old(Nodes()) && Sequence() == old(Sequence())
      ensures forall n :: n in Nodes() ==> n.len == old(n.len)
      ensures node == null ==> Valid(changed) && root == old(root)
      ensures node != null ==> root == node && Valid(changed - {node})
      ensures node != null ==> Risen(old(Snap(Nodes())), Snap(Nodes()), old(layout), layout, old(root), root, node)
    {
      if node == null {
        return;
      }
      hide Ok;
      ghost var S, m, L, top := Nodes(), Snap(Nodes()), layout, root;
      ShapedIn(m, L, top, changed);
      RisenItself(m, L, top, node);
      hide Risen, Shaped;
      while (IsLeftChild(node.parent) || IsRightChild(node.parent)) && (IsLeftChild(node) || IsRightChild(node))
        invariant Valid(changed) && Nodes() == S
        invariant Risen(m, Snap(S), L, layout, top, root, node)
        decreases |L.order| - Width(layout.span[node])
      {
        ghost var m1, L1, top1 := Snap(S), layout, root;
        FamilyOf(S, L1, top1, changed, node);
        DoubleRotate(node, changed);
        Combine(m, m1, Snap(S), L, L1, layout, top, top1, root, node, changed);
      }
      ghost var m1, L1, top1 := Snap(S), layout, root;
      FamilyOf(S, L1, top1, changed, node);
      if node.parent != null { FamilyOf(S, L1, top1, changed, node.parent); }
      Zig(node, changed);
      Combine(m, m1, Snap(S), L, L1, layout, top, top1, root, node, changed);
      RisenLens(S, m, L, layout, top, root, node);
    }

    /** The place of a node in the sequence. */
    ghost function Position(n: Node): (i: int)
      requires n in Nodes()
      reads this
    {
      layout.span[n].at
    }

    /** Gives all weights their right values when what lies on the right below `node` has lost its length. */
    method CutOffRight(node: Node, ghost changed: set<Node>)
      requires Valid(changed) && node in Nodes() && Emptied(Snap(Nodes()), layout, node, changed)
      modifies Nodes()
      ensures Valid({}) && SameLinks(old(Snap(Nodes())), Snap(Nodes()))
    {
      hide Ok, SameLinks, Emptied;
      ClearRight(node, Nodes(), layout, root, changed);
    }

    /**
     The nodes strictly between the boundaries have lost their length and no weight says so yet.
     Afterwards every weight is right, and the sequence is what it was.
     */
    method DeleteRange(left: Node, right: Node?, ghost changed: set<Node>)
      requires Valid(changed) && left in Nodes() && (right != null ==> right in Nodes())
      requires Range(Snap(Nodes()), layout, left, right, changed)
      modifies this, Nodes()
      ensures Valid({}) && Nodes() == old(Nodes()) && Sequence() == old(Sequence())
      ensures forall n :: n in Nodes() ==> n.len == old(n.len)
    {
      hide Ok, Range, Emptied, SameLinks;
      Isolate(left, right, changed);
      ghost var m1 := Snap(Nodes());
      CutOffRight(left, changed);
      KeptLens(m1, Nodes());
    }

    /** Rotates until what lies on the right below `left` is just the range. */
    method Isolate(left: Node, right: Node?, ghost changed: set<Node>)
      requires Valid(changed) && left in Nodes() && (right != null ==> right in Nodes())
      requires Range(Snap(Nodes()), layout, left, right, changed)
      modifies this, Nodes()
      ensures Valid(changed) && Nodes() == old(Nodes()) && Sequence() == old(Sequence())
      ensures forall n :: n in Nodes() ==> n.len == old(n.len)
      ensures Emptied(Snap(Nodes()), layout, left, changed)
    {
      hide Ok;
      Boundaries(Snap(Nodes()), layout, root, left, right, changed);
      hide Range, Risen, Emptied, Near;
      SplayInRange(left, left, right, changed);
      if right == null {
        FullWidth(Snap(Nodes()), layout, left, changed);
      } else {
        ghost var m, L := Snap(Nodes()), layout;
        SplayInRange(right, left, right, changed);
        CloseBy(m, Snap(Nodes()), L, layout, left, right, changed);
        Tuck(left, right, changed);
      }
    }

    /** Brings `left`, close below the root `right`, to be its child, with just the range between them below. */
    method Tuck(left: Node, right: Node, ghost changed: set<Node>)
      requires Valid(changed) && left in Nodes() && right in Nodes() && root == right
               && Near(Snap(Nodes()), right, left)
      requires Range(Snap(Nodes()), layout, left, right, changed)
      modifies this, Nodes()
      ensures Valid(changed) && Nodes() == old(Nodes()) && Sequence() == old(Sequence())
      ensures forall n :: n in Nodes() ==> n.len == old(n.len)
      ensures Emptied(Snap(Nodes()), layout, left, changed)
    {
      ghost var S, m, L := Nodes(), Snap(Nodes()), layout;
      hide Ok, Range, Emptied, Placed;
      FamilyOf(S, L, root, changed, right);
      if right.left != left {
        FamilyOf(S, L, root, changed, right.left);
        RotateRight(left, changed);
        assert Snap(S)[right] == CellOf(right);
        RangeTurned(m, Snap(S), L, layout, root, changed, left, right);
      }
      FamilyOf(S, layout, root, changed, right);
      PlacedOf(Snap(S), layout, root, changed);
      RangeBelow(Snap(S), layout, left, right, changed);
      LensBack(S, m);
    }

    /** A splay of a boundary leaves the range what it was. */
    method SplayInRange(node: Node, ghost left: Node, ghost right: Node?, ghost changed: set<Node>)
      requires Valid(changed) && node in Nodes() && node !in changed
      requires Range(Snap(Nodes()), layout, left, right, changed)
      modifies this, Nodes()
      ensures Valid(changed) && Nodes() == old(Nodes()) && Sequence() == old(Sequence()) && root == node
      ensures forall n :: n in Nodes() ==> n.len == old(n.len)
      ensures Risen(old(Snap(Nodes())), Snap(Nodes()), old(layout), layout, old(root), root, node)
      ensures Range(Snap(Nodes()), layout, left, right, changed)
    {
      ghost var S, m, L, top := Nodes(), Snap(Nodes()), layout, root;
      hide Ok, Range, Risen;
      Splay(node, changed);
      assert changed - {node} == changed;
      RangeRisen(m, Snap(S), L, layout, top, root, node, left, right, changed);
    }

    /** Recomputes the weights from `node` up to the root. */
    method UpdateTreeWeight(node: Node, ghost changed: set<Node>)
      requires Valid(changed) && node in Nodes()
      modifies Nodes()
      ensures Valid(changed - {node}) && SameLinks(old(Snap(Nodes())), Snap(Nodes()))
    {
      hide Ok, SameLinks;
      ReweighAll(node, Nodes(), layout, root, changed);
    }

    /** Puts `node` right after `prev`; the one length that may have changed unnoticed is that of `prev`. */
    method InsertAfter(prev: Node, node: Node, ghost changed: set<Node>)
      requires Valid(changed) && prev in Nodes() && node !in Nodes() && node.parent == null
      modifies this, Nodes(), node
      ensures root == node && Valid(changed - {prev}) && Nodes() == old(Nodes()) + {node}
      ensures InsertedAfter(old(Sequence()), Sequence(), prev, node)
      ensures SameLengths(old(Snap(Nodes())), Snap(Nodes())) && node.len == old(node.len)
    {
      hide Ok, Risen, InsertedAfter;
      Splay(prev, changed);
      PutOnTop(prev, node, changed - {prev});
    }

    method PutOnTop(prev: Node, node: Node, ghost changed: set<Node>)
      requires Valid(changed) && root == prev && prev in Nodes() && node !in Nodes() && node.parent == null
      modifies this, Nodes(), node
      ensures root == node && Valid(changed) && Nodes() == old(Nodes()) + {node}
      ensures InsertedAfter(old(Sequence()), Sequence(), prev, node)
      ensures SameLengths(old(Snap(Nodes())), Snap(Nodes())) && node.len == old(node.len)
    {
      ghost var S, L, m := Nodes(), layout, Snap(Nodes());
      hide Ok;
      PlacedOf(Snap(S), L, prev, changed);
      hide Placed, Grown;
      Graft(this, prev, node, S, L, changed);
      GrownOrder(L, prev, node);
      OrderGrown(L, Grown(L, prev, node), prev, node);
      hide InsertedAfter;
      Relay(Grown(L, prev, node), S + {node}, changed);
      LengthsOf(S + {node}, m);
    }

    /** Inserts after the current root, which is the last node inserted or looked at. */
    method Insert(node: Node)
      requires Valid({}) && node !in Nodes() && !node.HasLinks() && node.weight == node.len
      modifies this, Nodes(), node
      ensures root == node && Valid({}) && Nodes() == old(Nodes()) + {node}
      ensures if old(root) == null then old(Sequence()) == [] && Sequence() == [node]
              else InsertedAfter(old(Sequence()), Sequence(), old(root), node)
      ensures SameLengths(old(Snap(Nodes())), Snap(Nodes())) && node.len == old(node.len)
    {
      hide Ok;
      RootInside(Snap(Nodes()), layout, root, {});
      if root == null {
        ghost var L := Joined(Nothing(), node, Nothing());
        SingleOk(node);
        root := node;
        Relay(L, {node}, {});
      } else {
        hide InsertedAfter;
        assert {} - {root} == {};
        InsertAfter(root, node, {});
      }
    }

    /** Removes exactly `node` and leaves it without links; its length may have changed unnoticed. */
    method Delete(node: Node, ghost changed: set<Node>)
      requires Valid(changed) && changed <= {node} && node in Nodes()
      modifies this, Nodes()
      ensures Valid({}) && Nodes() == old(Nodes()) - {node} && !node.HasLinks()
      ensures RemovedFrom(old(Sequence()), Sequence(), node)
      ensures SameLengths(old(Snap(Nodes())), Snap(old(Nodes())))
    {
      hide Ok, Risen, RemovedFrom, SameLengths;
      ghost var S, m := Nodes(), Snap(Nodes());
      Splay(node, changed);
      assert changed - {node} == {};
      LengthsOf(S, m);
      TakeOut(node, S, m);
    }

    method TakeOut(node: Node, ghost S: set<Node>, ghost m: Store)
      requires Valid({}) && root == node && S == Nodes() && node in S && SameLengths(m, Snap(S))
      modifies this, Nodes()
      ensures Valid({}) && Nodes() == S - {node} && !node.HasLinks()
      ensures RemovedFrom(old(Sequence()), Sequence(), node) && SameLengths(m, Snap(S))
    {
      hide Ok, RemovedFrom, SameLengths;
      ghost var m1 := Snap(S);
      var top; ghost var L;
      top, L := Uproot(node, S, layout);
      LengthsTwice(m, m1, Snap(S));
      root := top;
      Relay(L, S - {node}, {});
    }

    /** The total length of the values. */
    method Len() returns (n: int)
      requires Valid({})
      ensures n == Before(Snap(Nodes()), layout, |Sequence()|)
    {
      hide Ok;
      Total(Snap(Nodes()), layout, root);
      RootInside(Snap(Nodes()), layout, root, {});
      n := if root == null then 0 else root.weight;
    }

    /** How much length stands before `node`; -1 for a node that is in no tree. */
    method IndexOf(node: Node?) returns (index: int)
      requires Valid({}) && (node != null && (node == root || node.HasLinks()) ==> node in Nodes())
      modifies this, Nodes()
      ensures Valid({}) && Nodes() == old(Nodes()) && Sequence() == old(Sequence())
      ensures forall n :: n in Nodes() ==> n.len == old(n.len)
      ensures if node == null || (node != old(root) && !old(node.HasLinks())) then index == -1
              else node in Nodes() && index == Before(Snap(Nodes()), layout, Position(node))
    {
      if node == null || (node != root && !node.HasLinks()) {
        return -1;
      }
      hide Ok, Risen;
      Splay(node, {});
      assert {} - {node} == {};
      RootIndex(Nodes(), layout, node);
      index := root.LeftWeight();
    }

    /**
     The first node that ends at or after `index`, and how far into it `index` lies. An empty tree
     answers with no node, and the answer is an error exactly if `index` is beyond the total length.
     */
    method FindForText(index: int) returns (r: Found)
      requires Valid({})
      modifies this, Nodes()
      ensures Valid({}) && Nodes() == old(Nodes()) && Sequence() == old(Sequence())
      ensures forall n :: n in Nodes() ==> n.len == old(n.len)
      ensures r.Nowhere? <==> old(root) == null
      ensures r.OutOfIndex? <==> old(root) != null && Before(Snap(Nodes()), layout, |Sequence()|) < index
      ensures r.Hit? ==>
                && root == r.node && r.node in Nodes() && r.offset <= r.node.len
                && Before(Snap(Nodes()), layout, Position(r.node)) + r.offset == index
                && EndBefore(Snap(Nodes()), layout, Position(r.node), index)
    {
      hide Ok, Before, EndBefore, Risen;
      RootInside(Snap(Nodes()), layout, root, {});
      if root == null {
        StoredOf(Snap(Nodes()), layout, root);
        return Nowhere;
      }
      var node, offset := DescendForText(root, index, Nodes(), layout);
      if offset > node.len {
        return OutOfIndex;
      }
      ghost var m, L, top := Snap(Nodes()), layout, root;
      Splay(node, {});
      assert {} - {node} == {};
      SameIndex(m, Snap(Nodes()), L, layout, top, node, node, index);
      return Hit(node, offset);
    }

    /** The node that covers `index`; an error exactly if there is none and the tree is not empty. */
    method FindForArray(index: int) returns (node: Node?, ok: bool)
      requires Valid({})
      modifies this, Nodes()
      ensures Valid({}) && Nodes() == old(Nodes()) && Sequence() == old(Sequence())
      ensures forall n :: n in Nodes() ==> n.len == old(n.len)
      ensures old(root) == null ==> node == null && ok
      ensures old(root) != null ==> ok == (0 <= index < Before(Snap(Nodes()), layout, |Sequence()|)) == (node != null)
      ensures node != null ==>
                && root == node && node in Nodes()
                && Before(Snap(Nodes()), layout, Position(node)) <= index
                   < Before(Snap(Nodes()), layout, Position(node) + 1)
    {
      hide Ok, Before, Risen;
      RootInside(Snap(Nodes()), layout, root, {});
      if root == null {
        return null, true;
      }
      WeightsOf(Nodes(), layout, root, root);
      RootSpan(Snap(Nodes()), layout, root);
      var size := Len();
      if index < 0 || index >= size {
        return null, false;
      }
      var found := DescendForArray(root, index, Nodes(), layout);
      ghost var m, L, top := Snap(Nodes()), layout, root;
      Splay(found, {});
      assert {} - {found} == {};
      SameIndex(m, Snap(Nodes()), L, layout, top, found, found, index);
      return found, true;
    }

    /** The nodes from left to right, which is what the tree stands for. */
    method InOrder() returns (nodes: seq<Node>)
      requires Valid({})
      ensures nodes == Sequence()
    {
      hide Ok;
      RootInside(Snap(Nodes()), layout, root, {});
      ShapedIn(Snap(Nodes()), layout, root, {});
      hide Shaped;
      if root != null { RootSpan(Snap(Nodes()), layout, root); }
      nodes := Traverse(root, Nodes(), layout, root, 0, |layout.order|);
      assert layout.order[0..|layout.order|] == layout.order;
    }

    method Rightmost() returns (node: Node)
      requires root != null && Valid({})
      ensures node in Nodes() && Position(node) == |Sequence()| - 1
    {
      hide Ok;
      ShapedIn(Snap(Nodes()), layout, root, {});
      RootInside(Snap(Nodes()), layout, root, {});
      hide Shaped;
      node := RightmostOf(root, Nodes(), layout);
    }

    /** Makes the last node the root. */
    method SplayLast()
      requires root != null && Valid({})
      modifies this, Nodes()
      ensures Valid({}) && Nodes() == old(Nodes()) && Sequence() == old(Sequence())
      ensures root != null && root in Nodes() && Position(root) == |Sequence()| - 1
      ensures forall n :: n in Nodes() ==> n.len == old(n.len)
    {
      hide Ok, Risen;
      ghost var m, L, top := Snap(Nodes()), layout, root;
      var rightmost := Rightmost();
      Splay(rightmost, {});
      assert {} - {rightmost} == {};
      SamePosition(m, Snap(Nodes()), L, layout, top, root, {}, {}, rightmost);
    }

    /** The layout is recorded anew; nothing else happens. */
    ghost method Relay(L: Layout, S: set<Node>, changed: set<Node>)
      requires Ok(Snap(S), L, root, changed) && L.span.Keys == S
      modifies this`layout
      ensures layout == L && Nodes() == S && Snap(S) == old(Snap(S)) && Valid(changed)
    {
      hide Ok, Snap;
      layout := L;
    }
  }

  /** A tree of one unlinked node, or of none. */
  method NewTree(root: Node?) returns (t: Tree)
    requires root != null ==> !root.HasLinks() && root.weight == root.len
    ensures fresh(t) && t.root == root && t.Valid({}) && t.Sequence() == if root == null then [] else [root]
  {
    if root == null {
      t := new Tree(null, Nothing());
    } else {
      ghost var L := Joined(Nothing(), root, Nothing());
      SingleOk(root);
      hide Ok;
      assert L.span.Keys == {root};
      t := new Tree(root, L);
    }
  }
}
