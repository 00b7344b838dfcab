/**
 Editing the index tree in place: inserting, purging and moving nodes, and keeping the two cached
 lengths of every node, visible and total, in step with its children.

 The nodes of `S` form a forest. A ghost depth for every node makes the way up from a node finite.
 The length equations are conditions on a node and its children; while an edit is under way at
 most one node is off, by a known amount, and the walk to the root passes that amount upwards.
 */
module IndexTreeEdits {
  import IT = IndexTree

  class Node {
    const text: bool
    /** The length of the value held here. */
    const own: int
    /** Whether the value held here is a tombstone. */
    var removed: bool
    var parent: Node?
    var children: seq<Node>
    var visible: int
    var total: int

    constructor (text: bool, own: int, removed: bool)
      ensures this.text == text && this.own == own && this.removed == removed
      ensures parent == null && children == [] && visible == total == own
    {
      this.text, this.own, this.removed := text, own, removed;
      parent, children, visible, total := null, [], own, own;
    }
  }

  function PaddedLength(n: Node, all: bool): (r: int)
    reads n
  {
    (if all then n.total else n.visible) + if n.text then 0 else IT.ELEMENT_PADDING
  }

  // ---- Stores --------------------------------------------------------------------------------

  datatype Cell = Cell(text: bool, own: int, removed: bool, parent: Node?, children: seq<Node>, visible: int,
      total: int)

  type Store = map<Node, Cell>

  type Depths = map<Node, nat>

  ghost function CellOf(n: Node): (c: Cell)
    reads n
  {
    Cell(n.text, n.own, n.removed, n.parent, n.children, n.visible, n.total)
  }

  ghost function Snap(S: set<Node>): (m: Store)
    reads S
  {
    map n | n in S :: CellOf(n)
  }

  ghost function Len(c: Cell, all: bool): (n: int) {
    if all then c.total else c.visible
  }

  ghost function Lengthened(c: Cell, all: bool, delta: int): (r: Cell) {
    if all then c.(total := c.total + delta) else c.(visible := c.visible + delta)
  }

  /** What a child adds to its parent's length: nothing if the view does not show it. */
  ghost function Share(m: Store, c: Node, all: bool): (n: int) {
    if c in m && (all || !m[c].removed) then Len(m[c], all) + (if m[c].text then 0 else IT.ELEMENT_PADDING) else 0
  }

  ghost function Shares(m: Store, kids: seq<Node>, all: bool): (n: int) {
    if kids == [] then 0 else Share(m, kids[0], all) + Shares(m, kids[1..], all)
  }

  // ---- A forest ---------------------------------------------------------------------------------

  ghost predicate NoTwice(s: seq<Node>) {
    forall i, j :: 0 <= i < j < |s| ==> s[i] != s[j]
  }

  ghost predicate ChildrenOk(m: Store, n: Node)
    requires n in m
  {
    && (m[n].text ==> m[n].children == []) && NoTwice(m[n].children)
    && forall c :: c in m[n].children ==> c in m && m[c].parent == n
  }

  /** `loose` is on its way out: it still knows its parent, which no longer lists it. */
  ghost predicate ParentOk(m: Store, d: Depths, loose: Node?, n: Node)
    requires n in m && n in d
  {
    if m[n].parent == null then d[n] == 0
    else
      && m[n].parent in m && m[n].parent in d && d[n] == d[m[n].parent] + 1
      && (n != loose ==> n in m[m[n].parent].children)
  }

  ghost predicate Wired(m: Store, d: Depths, loose: Node?) {
    d.Keys == m.Keys && forall n :: n in m && n in d ==> ChildrenOk(m, n) && ParentOk(m, d, loose, n)
  }

  /** The length equation of one dimension holds everywhere, except that `off` is short of `delta`. */
  ghost predicate OffBy(m: Store, all: bool, off: Node?, delta: int) {
    forall n :: n in m ==> Balanced(m, all, n, if n == off then delta else 0)
  }

  ghost predicate Balanced(m: Store, all: bool, n: Node, short: int)
    requires n in m
  {
    Len(m[n], all) + short == m[n].own + Shares(m, m[n].children, all)
  }

  ghost predicate Exact(m: Store, all: bool) {
    OffBy(m, all, null, 0)
  }

  lemma At(m: Store, d: Depths, loose: Node?, n: Node)
    requires Wired(m, d, loose) && n in m
    ensures n in d && ChildrenOk(m, n) && ParentOk(m, d, loose, n)
  {
  }

  lemma {:induction false} SharesSame(m: Store, m': Store, kids: seq<Node>, all: bool)
    requires forall c :: c in kids ==> Share(m', c, all) == Share(m, c, all)
    ensures Shares(m', kids, all) == Shares(m, kids, all)
  {
    if kids != [] {
      assert kids[0] in kids;
      SharesSame(m, m', kids[1..], all);
    }
  }

  lemma {:induction false} SharesOne(m: Store, m': Store, kids: seq<Node>, p: Node, all: bool, delta: int)
    requires NoTwice(kids) && p in kids && Share(m', p, all) == Share(m, p, all) + delta
    requires forall c :: c in kids && c != p ==> Share(m', c, all) == Share(m, c, all)
    ensures Shares(m', kids, all) == Shares(m, kids, all) + delta
  {
    if kids[0] == p {
      assert forall c :: c in kids[1..] ==> c != p;
      SharesSame(m, m', kids[1..], all);
    } else {
      assert kids[0] in kids;
      assert NoTwice(kids[1..]);
      SharesOne(m, m', kids[1..], p, all, delta);
    }
  }

  lemma {:induction false} SharesSplit(m: Store, a: seq<Node>, b: seq<Node>, all: bool)
    ensures Shares(m, a + b, all) == Shares(m, a, all) + Shares(m, b, all)
  {
    if a == [] {
      assert a + b == b;
    } else {
      assert (a + b)[0] == a[0] && (a + b)[1..] == a[1..] + b;
      SharesSplit(m, a[1..], b, all);
    }
  }

  // ---- Passing a difference upwards ----------------------------------------------------------------

  ghost function Bumped(m: Store, p: Node, all: bool, delta: int): (m': Store)
    requires p in m
  {
    m[p := Lengthened(m[p], all, delta)]
  }

  /** Who is off once `p` has been corrected: its parent, unless the view hides `p` from it. */
  ghost function Next(m: Store, p: Node, all: bool): (q: Node?)
    requires p in m
  {
    if all || !m[p].removed then m[p].parent else null
  }

  lemma BumpedWired(m: Store, d: Depths, loose: Node?, p: Node, all: bool, delta: int)
    requires Wired(m, d, loose) && p in m
    ensures Wired(Bumped(m, p, all, delta), d, loose)
  {
    var m' := Bumped(m, p, all, delta);
    forall n | n in m' && n in d ensures ChildrenOk(m', n) && ParentOk(m', d, loose, n) {
      At(m, d, loose, n);
    }
  }

  lemma BumpedOff(m: Store, d: Depths, loose: Node?, p: Node, all: bool, delta: int)
    requires Wired(m, d, loose) && p in m && p != loose && OffBy(m, all, p, delta)
    ensures OffBy(Bumped(m, p, all, delta), all, Next(m, p, all), delta)
  {
    var m', q := Bumped(m, p, all, delta), Next(m, p, all);
    forall n | n in m' ensures Balanced(m', all, n, if n == q then delta else 0) {
      assert Balanced(m, all, n, if n == p then delta else 0);
      BumpedAt(m, d, loose, p, all, delta, n);
    }
  }

  lemma BumpedAt(m: Store, d: Depths, loose: Node?, p: Node, all: bool, delta: int, n: Node)
    requires Wired(m, d, loose) && p in m && p != loose && n in m
    requires Balanced(m, all, n, if n == p then delta else 0)
    ensures Balanced(Bumped(m, p, all, delta), all, n, if n == Next(m, p, all) then delta else 0)
  {
    hide Wired;
    var m', kids := Bumped(m, p, all, delta), m[n].children;
    At(m, d, loose, n);
    At(m, d, loose, p);
    assert forall c :: c != p ==> Share(m', c, all) == Share(m, c, all);
    if p in kids {
      assert m[p].parent == n && n != p;
      SharesOne(m, m', kids, p, all, if all || !m[p].removed then delta else 0);
    } else {
      SharesSame(m, m', kids, all);
    }
  }

  /** The root of the tree `n` is in. */
  ghost function Root(m: Store, d: Depths, n: Node): (r: Node)
    requires n in m && n in d
    decreases d[n]
  {
    var p := m[n].parent;
    if p != null && p in m && p in d && d[p] < d[n] then Root(m, d, p) else n
  }

  /** At most the length of one dimension changed. */
  ghost predicate Drifted(c: Cell, c': Cell, all: bool) {
    c' == Lengthened(c, all, Len(c', all) - Len(c, all))
  }

  /** Only lengths of one dimension changed, and only above depth `h`. */
  ghost predicate OnlyAbove(m: Store, m': Store, all: bool, d: Depths, h: int) {
    && m'.Keys == m.Keys && d.Keys == m.Keys
    && forall n :: n in m && n in d && n in m' ==> Drifted(m[n], m'[n], all) && (d[n] >= h ==> m'[n] == m[n])
  }

  lemma {:induction false} SameRoot(m: Store, m': Store, d: Depths, all: bool, h: int, n: Node)
    requires OnlyAbove(m, m', all, d, h) && n in m && n in d
    ensures Root(m', d, n) == Root(m, d, n)
    decreases d[n]
  {
    var p := m[n].parent;
    assert m'[n].parent == p;
    if p != null && p in m && p in d && d[p] < d[n] {
      SameRoot(m, m', d, all, h, p);
    }
  }

  lemma {:induction false} RootHigh(m: Store, d: Depths, n: Node)
    requires n in m && n in d && d.Keys == m.Keys
    ensures Root(m, d, n) in m && d[Root(m, d, n)] <= d[n]
    ensures Root(m, d, n) == n || d[Root(m, d, n)] < d[n]
    decreases d[n]
  {
    var p := m[n].parent;
    if p != null && p in m && p in d && d[p] < d[n] {
      RootHigh(m, d, p);
    }
  }

  method Bump(p: Node, delta: int, all: bool, ghost S: set<Node>)
    requires p in S
    modifies S
    ensures Snap(S) == Bumped(old(Snap(S)), p, all, delta)
  {
    if all {
      p.total := p.total + delta;
    } else {
      p.visible := p.visible + delta;
    }
  }

  lemma BumpedAbove(m: Store, m1: Store, d: Depths, p: Node, all: bool, delta: int, h: int)
    requires OnlyAbove(m, m1, all, d, h) && p in m1 && p in d && d[p] < h
    ensures OnlyAbove(m, Bumped(m1, p, all, delta), all, d, h)
  {
    var m2 := Bumped(m1, p, all, delta);
    forall n | n in m && n in d && n in m2 ensures Drifted(m[n], m2[n], all) && (d[n] >= h ==> m2[n] == m[n]) {
      assert Drifted(m[n], m1[n], all);
    }
  }

  /** What one step of the walk keeps. */
  ghost predicate Walking(m: Store, m1: Store, d: Depths, loose: Node?, all: bool, delta: int, h: int, start: Node?,
      cursor: Node?) {
    && Wired(m1, d, loose) && OnlyAbove(m, m1, all, d, h)
    && (cursor != null ==> cursor in m1 && cursor in d && d[cursor] < h)
    && (OffBy(m, all, start, delta) ==> OffBy(m1, all, cursor, delta))
    && (start != null ==>
          && start in m && start in m1 && start in d
          && (cursor == start || (Len(m1[start], all) == Len(m[start], all) + delta
              && (cursor != null ==> d[cursor] < d[start])))
          && (cursor == start ==> m1 == m))
  }

  lemma WalkOn(m: Store, m1: Store, d: Depths, loose: Node?, all: bool, delta: int, h: int, start: Node?, p: Node)
    requires start != null && Walking(m, m1, d, loose, all, delta, h, start, p)
             && (loose != null ==> loose in d && d[loose] >= h)
    ensures p in m1 && Walking(m, Bumped(m1, p, all, delta), d, loose, all, delta, h, start, Next(m1, p, all))
    ensures StepsLeft(d, Next(m1, p, all)) < StepsLeft(d, p)
  {
    hide Wired, OffBy, OnlyAbove;
    BumpedWired(m1, d, loose, p, all, delta);
    BumpedAbove(m, m1, d, p, all, delta, h);
    At(m1, d, loose, p);
    if OffBy(m, all, start, delta) {
      BumpedOff(m1, d, loose, p, all, delta);
    }
  }

  /** The walk over total lengths reaches the root, and changes it once. */
  ghost predicate RootDue(m: Store, m1: Store, d: Depths, delta: int, start: Node, cursor: Node?) {
    && start in m && start in d
    && var r := Root(m, d, start);
    && r in m && r in m1
    && (cursor != null ==> cursor in m && cursor in d && Root(m, d, cursor) == r && m1[r].total == m[r].total)
    && (cursor == null ==> m1[r].total == m[r].total + delta)
  }

  lemma RootWalkOn(m: Store, m1: Store, d: Depths, loose: Node?, delta: int, h: int, start: Node, p: Node)
    requires Walking(m, m1, d, loose, true, delta, h, start, p) && RootDue(m, m1, d, delta, start, p)
    ensures p in m1 && RootDue(m, Bumped(m1, p, true, delta), d, delta, start, Next(m1, p, true))
  {
    hide OffBy, ChildrenOk;
    assert Drifted(m[p], m1[p], true);
    assert m[p].parent == m1[p].parent;
    At(m1, d, loose, p);
    RootHigh(m, d, p);
    var q := m[p].parent;
    if q != null {
      assert Root(m, d, p) == Root(m, d, q);
      RootHigh(m, d, q);
    }
  }

  lemma RootStart(m: Store, d: Depths, delta: int, start: Node)
    requires start in m && start in d && d.Keys == m.Keys
    ensures RootDue(m, m, d, delta, start, start)
  {
    RootHigh(m, d, start);
  }

  method StepUp(parent: Node, delta: int, all: bool, ghost S: set<Node>) returns (next: Node?)
    requires parent in S
    modifies S
    ensures Snap(S) == Bumped(old(Snap(S)), parent, all, delta) && next == Next(old(Snap(S)), parent, all)
  {
    Bump(parent, delta, all, S);
    if !all && parent.removed {
      return null;
    }
    return parent.parent;
  }

  /** Adds `delta` to the length of every ancestor; in the visible view it stops at a tombstone. */
  method UpdateAncestorsLength(node: Node, delta: int, all: bool, ghost S: set<Node>, ghost d: Depths,
      ghost loose: Node?)
    requires Wired(Snap(S), d, loose) && node in S && (loose == null || loose == node)
    modifies S
    ensures node in d && Wired(Snap(S), d, loose) && OnlyAbove(old(Snap(S)), Snap(S), all, d, d[node])
    ensures OffBy(old(Snap(S)), all, old(node.parent), delta) ==> Exact(Snap(S), all)
    ensures old(node.parent) != null ==>
              && old(node.parent) in S
              && Len(Snap(S)[old(node.parent)], all) == Len(old(Snap(S))[old(node.parent)], all) + delta
    ensures old(node.parent) != null && all ==> RootDue(old(Snap(S)), Snap(S), d, delta, old(node.parent), null)
  {
    ghost var m := Snap(S);
    At(m, d, loose, node);
    var parent := node.parent;
    ghost var start, h := parent, d[node];
    StartWalk(m, d, loose, all, delta, h, start);
    if start != null { RootStart(m, d, delta, start); }
    hide Walking, RootDue;
    while parent != null
      invariant start == null ==> parent == null
      invariant Walking(m, Snap(S), d, loose, all, delta, h, start, parent)
      invariant start != null && all ==> RootDue(m, Snap(S), d, delta, start, parent)
      decreases StepsLeft(d, parent)
    {
      WalkOn(m, Snap(S), d, loose, all, delta, h, start, parent);
      if all { RootWalkOn(m, Snap(S), d, loose, delta, h, start, parent); }
      parent := StepUp(parent, delta, all, S);
    }
    EndWalk(m, Snap(S), d, loose, all, delta, h, start);
  }

  lemma EndWalk(m: Store, m1: Store, d: Depths, loose: Node?, all: bool, delta: int, h: int, start: Node?)
    requires Walking(m, m1, d, loose, all, delta, h, start, null)
    ensures Wired(m1, d, loose) && OnlyAbove(m, m1, all, d, h)
    ensures OffBy(m, all, start, delta) ==> Exact(m1, all)
    ensures start != null ==> start in m && start in m1 && Len(m1[start], all) == Len(m[start], all) + delta
  {
    hide Wired, OnlyAbove;
    if OffBy(m, all, start, delta) {
      forall n | n in m1 ensures Balanced(m1, all, n, 0) {}
    }
  }

  ghost function StepsLeft(d: Depths, p: Node?): (n: nat) {
    if p == null then 0 else if p in d then d[p] + 1 else 0
  }

  lemma StartWalk(m: Store, d: Depths, loose: Node?, all: bool, delta: int, h: int, start: Node?)
    requires Wired(m, d, loose) && (start != null ==> start in m && start in d && d[start] < h)
    ensures Walking(m, m, d, loose, all, delta, h, start, start)
  {
  }

  // ---- Taking a child in and letting one go ---------------------------------------------------------

  ghost function Attached(m: Store, n: Node, k: int, c: Node): (m': Store)
    requires n in m && c in m && 0 <= k <= |m[n].children|
  {
    m[n := m[n].(children := m[n].children[..k] + [c] + m[n].children[k..])][c := m[c].(parent := n)]
  }

  ghost function Unlisted(m: Store, n: Node, k: int): (m': Store)
    requires n in m && 0 <= k < |m[n].children|
  {
    m[n := m[n].(children := m[n].children[..k] + m[n].children[k + 1..])]
  }

  ghost function Orphaned(m: Store, c: Node): (m': Store)
    requires c in m
  {
    m[c := m[c].(parent := null)]
  }

  /** One more child at one place; no other children and no other parent change. */
  lemma AttachedMeans(m: Store, n: Node, k: int, c: Node)
    requires n in m && c in m && n != c && 0 <= k <= |m[n].children|
    ensures var m' := Attached(m, n, k, c);
            && m'.Keys == m.Keys && m'[c].parent == n
            && |m'[n].children| == |m[n].children| + 1 && m'[n].children[k] == c
            && (forall i :: 0 <= i < k ==> m'[n].children[i] == m[n].children[i])
            && (forall i :: k < i <= |m[n].children| ==> m'[n].children[i] == m[n].children[i - 1])
            && (forall x :: x in m && x != n ==> m'[x].children == m[x].children)
            && (forall x :: x in m && x != c ==> m'[x].parent == m[x].parent)
            && (forall x :: x in m ==>
                  m'[x].removed == m[x].removed && m'[x].own == m[x].own && m'[x].text == m[x].text)
  {
  }

  /** One child less at one place, which has no parent any more; no other children and no other parent change. */
  lemma TakenOutMeans(m: Store, n: Node, k: int)
    requires n in m && 0 <= k < |m[n].children| && m[n].children[k] in m && m[n].children[k] != n
    ensures var c := m[n].children[k];
            var m' := Orphaned(Unlisted(m, n, k), c);
            && m'.Keys == m.Keys && m'[c].parent == null
            && |m'[n].children| == |m[n].children| - 1
            && (forall i :: 0 <= i < k ==> m'[n].children[i] == m[n].children[i])
            && (forall i :: k <= i < |m[n].children| - 1 ==> m'[n].children[i] == m[n].children[i + 1])
            && (forall x :: x in m && x != n ==> m'[x].children == m[x].children)
            && (forall x :: x in m && x != c ==> m'[x].parent == m[x].parent)
            && (forall x :: x in m ==>
                  m'[x].removed == m[x].removed && m'[x].own == m[x].own && m'[x].text == m[x].text)
  {
  }

  /** `x` is `c` or below it. */
  ghost predicate Under(m: Store, d: Depths, x: Node, c: Node)
    requires x in d
    decreases d[x]
  {
    x == c || (x in m && m[x].parent != null && m[x].parent in d && d[m[x].parent] < d[x]
        && Under(m, d, m[x].parent, c))
  }

  lemma UnderParent(m: Store, d: Depths, loose: Node?, x: Node, c: Node)
    requires Wired(m, d, loose) && x in m && x in d && x != c
    ensures m[x].parent != null ==> m[x].parent in d && (Under(m, d, x, c) <==> Under(m, d, m[x].parent, c))
    ensures m[x].parent == null ==> !Under(m, d, x, c)
  {
    At(m, d, loose, x);
  }

  lemma {:induction false} UnderDeeper(m: Store, d: Depths, x: Node, c: Node)
    requires x in d && c in d && Under(m, d, x, c)
    ensures d[x] >= d[c]
    decreases d[x]
  {
    if x != c {
      UnderDeeper(m, d, m[x].parent, c);
    }
  }

  ghost function Deepened(m: Store, d: Depths, c: Node, more: nat): (d': Depths) {
    map x | x in d :: if Under(m, d, x, c) then d[x] + more else d[x]
  }

  ghost function Raised(m: Store, d: Depths, c: Node): (d': Depths)
    requires c in d
  {
    map x | x in d :: if Under(m, d, x, c) && d[x] >= d[c] then d[x] - d[c] else d[x]
  }

  /** What one needs to put `c` under `n`. */
  ghost predicate CanAttach(m: Store, d: Depths, n: Node, c: Node) {
    && n in m && c in m && n in d && !m[n].text && m[c].parent == null && !Under(m, d, n, c)
  }

  /** Listed nowhere, `c` is in no node's children. */
  lemma NotListed(m: Store, d: Depths, c: Node, x: Node)
    requires Wired(m, d, null) && c in m && m[c].parent == null && x in m
    ensures c !in m[x].children
  {
    At(m, d, null, x);
  }

  lemma AttachedChildren(m: Store, d: Depths, n: Node, k: int, c: Node, x: Node)
    requires Wired(m, d, null) && CanAttach(m, d, n, c) && 0 <= k <= |m[n].children| && x in m
    ensures ChildrenOk(Attached(m, n, k, c), x)
  {
    hide Wired, NoTwice;
    assert n != c;
    At(m, d, null, x);
    NotListed(m, d, c, x);
    if x == n {
      SpliceOnce(m[n].children, k, c);
    }
  }

  lemma AttachedParent(m: Store, d: Depths, n: Node, k: int, c: Node, x: Node)
    requires Wired(m, d, null) && CanAttach(m, d, n, c) && 0 <= k <= |m[n].children| && x in m && x in d
    ensures x in Deepened(m, d, c, d[n] + 1)
    ensures ParentOk(Attached(m, n, k, c), Deepened(m, d, c, d[n] + 1), null, x)
  {
    hide Wired, NoTwice;
    assert n != c;
    At(m, d, null, x);
    At(m, d, null, n);
    NotListed(m, d, c, n);
    SpliceOnce(m[n].children, k, c);
    if x != c {
      UnderParent(m, d, null, x, c);
    }
  }

  lemma SpliceOnce(s: seq<Node>, k: int, c: Node)
    requires NoTwice(s) && c !in s && 0 <= k <= |s|
    ensures NoTwice(s[..k] + [c] + s[k..]) && forall x :: x in s[..k] + [c] + s[k..] <==> x in s || x == c
  {
    var t := s[..k] + [c] + s[k..];
    forall i | 0 <= i < |t| ensures t[i] == if i < k then s[i] else if i == k then c else s[i - 1] {}
    forall x | x in s ensures x in t {
      var i :| 0 <= i < |s| && s[i] == x;
      assert t[if i < k then i else i + 1] == x;
    }
    assert t[k] == c;
  }

  lemma AttachedWired(m: Store, d: Depths, n: Node, k: int, c: Node)
    requires Wired(m, d, null) && CanAttach(m, d, n, c) && 0 <= k <= |m[n].children|
    ensures Wired(Attached(m, n, k, c), Deepened(m, d, c, d[n] + 1), null)
  {
    var m', d' := Attached(m, n, k, c), Deepened(m, d, c, d[n] + 1);
    assert d'.Keys == d.Keys && m'.Keys == m.Keys;
    hide ChildrenOk, ParentOk, Attached, Deepened, CanAttach;
    forall x | x in m' && x in d' ensures ChildrenOk(m', x) && ParentOk(m', d', null, x) {
      hide Wired;
      AttachedChildren(m, d, n, k, c, x);
      AttachedParent(m, d, n, k, c, x);
    }
  }

  lemma SharesSplice(m: Store, s: seq<Node>, k: int, c: Node, all: bool)
    requires 0 <= k <= |s|
    ensures Shares(m, s[..k] + [c] + s[k..], all) == Shares(m, s, all) + Share(m, c, all)
  {
    SharesSplit(m, s[..k], [c], all);
    SharesSplit(m, s[..k] + [c], s[k..], all);
    SharesSplit(m, s[..k], s[k..], all);
    assert s[..k] + s[k..] == s && [c][1..] == [];
  }

  lemma AttachedOff(m: Store, n: Node, k: int, c: Node, all: bool)
    requires n in m && c in m && n != c && 0 <= k <= |m[n].children| && Exact(m, all)
    ensures OffBy(Attached(m, n, k, c), all, n, Share(m, c, all))
  {
    var m' := Attached(m, n, k, c);
    assert forall y :: Share(m', y, all) == Share(m, y, all);
    forall x | x in m' ensures Balanced(m', all, x, if x == n then Share(m, c, all) else 0) {
      assert Balanced(m, all, x, 0);
      hide Share, OffBy;
      SharesSame(m, m', m[x].children, all);
      if x == n {
        SharesSplice(m', m[n].children, k, c, all);
      }
    }
  }

  lemma CutOnce(s: seq<Node>, k: int)
    requires NoTwice(s) && 0 <= k < |s|
    ensures var t := s[..k] + s[k + 1..]; NoTwice(t) && forall x :: x in t <==> x in s && x != s[k]
  {
    var t := s[..k] + s[k + 1..];
    forall i | 0 <= i < |t| ensures t[i] == if i < k then s[i] else s[i + 1] {}
    forall x | x in s && x != s[k] ensures x in t {
      var i :| 0 <= i < |s| && s[i] == x;
      assert t[if i < k then i else i - 1] == x;
    }
  }

  lemma SharesCut(m: Store, s: seq<Node>, k: int, all: bool)
    requires 0 <= k < |s|
    ensures Shares(m, s[..k] + s[k + 1..], all) == Shares(m, s, all) - Share(m, s[k], all)
  {
    var t := s[..k] + s[k + 1..];
    assert t[..k] == s[..k] && t[k..] == s[k + 1..];
    SharesSplice(m, t, k, s[k], all);
    assert t[..k] + [s[k]] + t[k..] == s;
  }

  /** A child struck from its parent's list. */
  lemma UnlistedWired(m: Store, d: Depths, n: Node, k: int)
    requires Wired(m, d, null) && n in m && 0 <= k < |m[n].children|
    ensures Wired(Unlisted(m, n, k), d, m[n].children[k])
  {
    var m', c := Unlisted(m, n, k), m[n].children[k];
    hide ChildrenOk, ParentOk;
    forall x | x in m' && x in d ensures ChildrenOk(m', x) && ParentOk(m', d, c, x) {
      hide Wired, Unlisted;
      UnlistedAt(m, d, n, k, x);
    }
  }

  lemma UnlistedAt(m: Store, d: Depths, n: Node, k: int, x: Node)
    requires Wired(m, d, null) && n in m && 0 <= k < |m[n].children| && x in m && x in d
    ensures ChildrenOk(Unlisted(m, n, k), x) && ParentOk(Unlisted(m, n, k), d, m[n].children[k], x)
  {
    hide NoTwice, Wired;
    At(m, d, null, n);
    At(m, d, null, x);
    CutOnce(m[n].children, k);
    assert m[n].children[k] in m[n].children;
    assert ChildrenOk(Unlisted(m, n, k), x) by {
      hide ParentOk;
    }
    hide ChildrenOk;
  }

  lemma UnlistedOff(m: Store, n: Node, k: int, all: bool)
    requires n in m && 0 <= k < |m[n].children| && Exact(m, all)
    ensures OffBy(Unlisted(m, n, k), all, n, -Share(m, m[n].children[k], all))
  {
    var m', c := Unlisted(m, n, k), m[n].children[k];
    assert forall y :: Share(m', y, all) == Share(m, y, all);
    forall x | x in m' ensures Balanced(m', all, x, if x == n then -Share(m, c, all) else 0) {
      assert Balanced(m, all, x, 0);
      hide Share, OffBy;
      SharesSame(m, m', m[x].children, all);
      if x == n {
        SharesCut(m', m[n].children, k, all);
      }
    }
  }

  lemma OrphanedParent(m: Store, d: Depths, c: Node, x: Node)
    requires Wired(m, d, c) && c in m && c in d && x in m && x in d
    ensures x in Raised(m, d, c) && ParentOk(Orphaned(m, c), Raised(m, d, c), null, x)
  {
    hide Wired, ChildrenOk;
    At(m, d, c, x);
    if x != c {
      UnderParent(m, d, c, x, c);
      if Under(m, d, x, c) {
        UnderDeeper(m, d, x, c);
        UnderDeeper(m, d, m[x].parent, c);
      }
    }
  }

  /** A struck child that forgets its parent is the root of its own tree. */
  lemma OrphanedWired(m: Store, d: Depths, c: Node)
    requires Wired(m, d, c) && c in m && c in d && (forall x :: x in m ==> c !in m[x].children)
    ensures Wired(Orphaned(m, c), Raised(m, d, c), null)
  {
    var m', d' := Orphaned(m, c), Raised(m, d, c);
    assert d'.Keys == d.Keys && m'.Keys == m.Keys && m.Keys == d.Keys;
    hide Wired, ChildrenOk, ParentOk, Raised, Orphaned;
    forall x | x in m' && x in d' ensures ChildrenOk(m', x) && ParentOk(m', d', null, x) {
      OrphanedParent(m, d, c, x);
      OrphanedChildren(m, d, c, x);
    }
    WiredFrom(m', d');
  }

  lemma WiredFrom(m: Store, d: Depths)
    requires d.Keys == m.Keys && forall n :: n in m && n in d ==> ChildrenOk(m, n) && ParentOk(m, d, null, n)
    ensures Wired(m, d, null)
  {
  }

  lemma OrphanedChildren(m: Store, d: Depths, c: Node, x: Node)
    requires Wired(m, d, c) && c in m && x in m && c !in m[x].children
    ensures ChildrenOk(Orphaned(m, c), x)
  {
    At(m, d, c, x);
    hide Wired;
  }

  lemma OrphanedOff(m: Store, c: Node, all: bool)
    requires c in m
    ensures Exact(Orphaned(m, c), all) <==> Exact(m, all)
  {
    var m' := Orphaned(m, c);
    forall x | x in m ensures Balanced(m', all, x, 0) <==> Balanced(m, all, x, 0) {
      assert forall y :: Share(m', y, all) == Share(m, y, all);
      hide Share;
      SharesSame(m, m', m[x].children, all);
    }
  }

  // ---- The operations ---------------------------------------------------------------------------------

  /** A forest with both length equations at every node. */
  ghost predicate Forest(m: Store, d: Depths) {
    Wired(m, d, null) && Exact(m, false) && Exact(m, true)
  }

  /** The same nodes, values, parents and children; lengths apart. */
  ghost predicate SameStructure(m: Store, m': Store) {
    m'.Keys == m.Keys && forall n :: n in m && n in m' ==>
        m'[n] == m[n].(visible := m'[n].visible, total := m'[n].total)
  }

  lemma AboveStructure(m: Store, m': Store, all: bool, d: Depths, h: int)
    requires OnlyAbove(m, m', all, d, h)
    ensures SameStructure(m, m')
  {
    forall n | n in m && n in m' ensures m'[n] == m[n].(visible := m'[n].visible, total := m'[n].total) {
      assert Drifted(m[n], m'[n], all);
    }
  }

  lemma DriftAt(m: Store, m': Store, all: bool, d: Depths, h: int, n: Node)
    requires OnlyAbove(m, m', all, d, h) && n in m
    ensures n in m' && n in d && Drifted(m[n], m'[n], all) && (d[n] >= h ==> m'[n] == m[n])
  {
  }

  lemma OtherAt(m: Store, m': Store, all: bool, d: Depths, h: int, n: Node, short: int)
    requires OnlyAbove(m, m', all, d, h) && n in m
    ensures n in m' && (Balanced(m', !all, n, short) <==> Balanced(m, !all, n, short))
  {
    assert m'.Keys == m.Keys;
    hide OnlyAbove;
    DriftAt(m, m', all, d, h, n);
    forall c | c in m[n].children ensures Share(m', c, !all) == Share(m, c, !all) {
      if c in m { DriftAt(m, m', all, d, h, c); }
    }
    SharesSame(m, m', m[n].children, !all);
  }

  /** A walk in one dimension is not seen in the other. */
  lemma OtherDimension(m: Store, m': Store, all: bool, d: Depths, h: int, off: Node?, delta: int)
    requires OnlyAbove(m, m', all, d, h)
    ensures OffBy(m', !all, off, delta) <==> OffBy(m, !all, off, delta)
  {
    assert m'.Keys == m.Keys;
    hide OnlyAbove, Balanced;
    forall n | n in m
      ensures n in m' && (Balanced(m', !all, n, if n == off then delta else 0) <==>
              Balanced(m, !all, n, if n == off then delta else 0))
    {
      OtherAt(m, m', all, d, h, n, if n == off then delta else 0);
    }
  }

  /** A walk that starts above the children of `n` leaves what they add alone. */
  lemma SiblingsSame(m: Store, d: Depths, m': Store, all: bool, n: Node, h: int)
    requires Wired(m, d, null) && n in m && n in d && OnlyAbove(m, m', all, d, h) && h <= d[n] + 1
    ensures n in m' && m'[n].own == m[n].own && m'[n].children == m[n].children
    ensures Shares(m', m[n].children, all) == Shares(m, m[n].children, all)
  {
    hide Wired, OnlyAbove;
    At(m, d, null, n);
    DriftAt(m, m', all, d, h, n);
    forall x | x in m[n].children ensures Share(m', x, all) == Share(m, x, all) {
      hide Share;
      At(m, d, null, x);
      DriftAt(m, m', all, d, h, x);
      SameCell(m, m', x, all);
    }
    SharesSame(m, m', m[n].children, all);
  }

  lemma SameCell(m: Store, m': Store, x: Node, all: bool)
    requires x in m && x in m' && m'[x] == m[x]
    ensures Share(m', x, all) == Share(m, x, all)
  {
  }

  /** After a walk by `delta`, a node that was short of `short` is short of the rest. */
  lemma StillOff(m: Store, d: Depths, m': Store, all: bool, n: Node, c: Node, short: int, delta: int)
    requires Wired(m, d, null) && n in m && c in m && c in d && m[c].parent == n && OffBy(m, all, n, short)
    requires OnlyAbove(m, m', all, d, d[c]) && n in m' && Len(m'[n], all) == Len(m[n], all) + delta
    ensures Exact(m', all) ==> short == delta
  {
    hide Wired, OnlyAbove, OffBy, Shares, Len;
    OffAt(m, all, n, short, n);
    if Exact(m', all) { OffAt(m', all, null, 0, n); }
    At(m, d, null, c);
    SiblingsSame(m, d, m', all, n, d[c]);
  }

  lemma OffAt(m: Store, all: bool, off: Node?, delta: int, n: Node)
    requires OffBy(m, all, off, delta) && n in m
    ensures Balanced(m, all, n, if n == off then delta else 0)
  {
  }

  datatype Outcome = Done | TextHasNoChildren | ChildNotFound

  method OffsetOfChild(n: Node, child: Node) returns (offset: int)
    ensures offset == -1 <==> child !in n.children
    ensures -1 <= offset < |n.children| && (offset >= 0 ==> n.children[offset] == child)
  {
    for i := 0 to |n.children|
      invariant child !in n.children[..i]
    {
      if n.children[i] == child {
        return i;
      }
    }
    return -1;
  }

  /** Where the code splices for a given offset: beyond the end means at the end. */
  function SpliceAt(n: Node, offset: int): (k: int)
    reads n
    ensures 0 <= offset ==> k == if offset < |n.children| then offset else |n.children|
  {
    if offset > |n.children| || |n.children| == 0 then |n.children| else offset
  }

  method InsertAtInternal(n: Node, c: Node, offset: int, ghost S: set<Node>)
    requires n in S && c in S && n != c && 0 <= offset
    modifies S
    ensures 0 <= old(SpliceAt(n, offset)) <= old(|n.children|)
    ensures Snap(S) == Attached(old(Snap(S)), n, old(SpliceAt(n, offset)), c)
  {
    SpliceEnd(n.children, c);
    if offset > |n.children| || |n.children| == 0 {
      n.children := n.children + [c];
    } else {
      n.children := n.children[..offset] + [c] + n.children[offset..];
    }
    c.parent := n;
  }

  lemma SpliceEnd(s: seq<Node>, c: Node)
    ensures s[..|s|] + [c] + s[|s|..] == s + [c]
  {
  }

  /** Tells the visible lengths above about a child just attached: right for one that is shown. */
  method AnnounceVisible(n: Node, c: Node, ghost S: set<Node>, ghost d: Depths)
    requires Wired(Snap(S), d, null) && n in S && c in S && c.parent == n
    requires OffBy(Snap(S), false, n, Share(Snap(S), c, false))
    modifies S
    ensures c in d && Wired(Snap(S), d, null) && OnlyAbove(old(Snap(S)), Snap(S), false, d, d[c])
    ensures Exact(Snap(S), false) <==> !old(c.removed) || old(PaddedLength(c, false)) == 0
  {
    ghost var m, delta, short := Snap(S), PaddedLength(c, false), Share(Snap(S), c, false);
    assert m[c] == CellOf(c);
    assert short == if c.removed then 0 else delta;
    hide Wired, OnlyAbove, OffBy, Share;
    UpdateAncestorsLength(c, PaddedLength(c, false), false, S, d, null);
    StillOff(m, d, Snap(S), false, n, c, short, delta);
  }

  method AnnounceTotal(n: Node, c: Node, ghost S: set<Node>, ghost d: Depths)
    requires Wired(Snap(S), d, null) && n in S && c in S && c.parent == n
    requires OffBy(Snap(S), true, n, Share(Snap(S), c, true))
    modifies S
    ensures c in d && Wired(Snap(S), d, null) && OnlyAbove(old(Snap(S)), Snap(S), true, d, d[c]) && Exact(Snap(S), true)
    ensures RootDue(old(Snap(S)), Snap(S), d, old(PaddedLength(c, true)), n, null)
  {
    assert Snap(S)[c] == CellOf(c);
    assert Share(Snap(S), c, true) == PaddedLength(c, true);
    hide Wired, OnlyAbove, OffBy, Share, RootDue;
    UpdateAncestorsLength(c, PaddedLength(c, true), true, S, d, null);
  }

  /** Puts `c` among the children of `n`; the lengths above do not know yet. */
  method Attach(n: Node, c: Node, offset: int, ghost S: set<Node>, ghost d: Depths) returns (ghost d': Depths)
    requires Forest(Snap(S), d) && CanAttach(Snap(S), d, n, c) && 0 <= offset
    modifies S
    ensures n in d && d' == Deepened(old(Snap(S)), d, c, d[n] + 1) && 0 <= old(SpliceAt(n, offset)) <= old(|n.children|)
    ensures Snap(S) == Attached(old(Snap(S)), n, old(SpliceAt(n, offset)), c) && Wired(Snap(S), d', null)
    ensures OffBy(Snap(S), false, n, Share(Snap(S), c, false)) && OffBy(Snap(S), true, n, Share(Snap(S), c, true))
    ensures CellOf(c) == old(CellOf(c)).(parent := n)
  {
    ghost var m, k := Snap(S), SpliceAt(n, offset);
    assert m[n] == CellOf(n) && m[c] == CellOf(c) && n != c;
    d' := Deepened(m, d, c, d[n] + 1);
    hide Wired, OffBy, CanAttach, Deepened;
    AttachedWired(m, d, n, k, c);
    AttachedOff(m, n, k, c, false);
    AttachedOff(m, n, k, c, true);
    AttachedShare(m, n, k, c);
    hide Share;
    InsertAtInternal(n, c, offset, S);
    assert Snap(S)[c] == CellOf(c);
  }

  lemma AttachedShare(m: Store, n: Node, k: int, c: Node)
    requires n in m && c in m && n != c && 0 <= k <= |m[n].children|
    ensures forall all :: Share(Attached(m, n, k, c), c, all) == Share(m, c, all)
  {
  }

  /** Attaches `c` and tells the lengths above. */
  method AttachAndAnnounce(n: Node, c: Node, offset: int, skipVisible: bool, ghost S: set<Node>, ghost d: Depths)
      returns (ghost d': Depths)
    requires Forest(Snap(S), d) && CanAttach(Snap(S), d, n, c) && 0 <= offset && (skipVisible ==> c.removed)
    modifies S
    ensures n in d && d' == Deepened(old(Snap(S)), d, c, d[n] + 1) && 0 <= old(SpliceAt(n, offset)) <= old(|n.children|)
    ensures Wired(Snap(S), d', null) && Exact(Snap(S), true)
    ensures SameStructure(Attached(old(Snap(S)), n, old(SpliceAt(n, offset)), c), Snap(S))
    ensures Exact(Snap(S), false) <==> skipVisible || !old(c.removed) || old(PaddedLength(c, false)) == 0
    ensures RootDue(Attached(old(Snap(S)), n, old(SpliceAt(n, offset)), c), Snap(S), d', old(PaddedLength(c, true)), n,
            null)
  {
    hide Forest, Exact, CanAttach, Deepened, Attached, Wired, OffBy, Share, SameStructure, RootDue;
    assert n in S && c in S by { CanAttachIn(Snap(S), d, n, c); }
    d' := Attach(n, c, offset, S, d);
    Announce(n, c, skipVisible, S, d');
  }

  lemma CanAttachIn(m: Store, d: Depths, n: Node, c: Node)
    requires CanAttach(m, d, n, c)
    ensures n in m && c in m && n != c
  {
  }

  method AnnounceShown(n: Node, c: Node, skipVisible: bool, ghost S: set<Node>, ghost d: Depths)
    requires Wired(Snap(S), d, null) && n in S && c in S && c.parent == n && (skipVisible ==> c.removed)
    requires OffBy(Snap(S), false, n, Share(Snap(S), c, false)) && OffBy(Snap(S), true, n, Share(Snap(S), c, true))
    modifies S
    ensures c in d && Wired(Snap(S), d, null) && OnlyAbove(old(Snap(S)), Snap(S), false, d, d[c])
            && CellOf(c) == old(CellOf(c))
    ensures Exact(Snap(S), false) <==> skipVisible || !old(c.removed) || old(PaddedLength(c, false)) == 0
    ensures OffBy(Snap(S), true, n, Share(Snap(S), c, true))
  {
    ghost var m := Snap(S);
    assert m[c] == CellOf(c);
    assert skipVisible ==> Share(m, c, false) == 0;
    hide Wired, OffBy, OnlyAbove, Share;
    At(m, d, null, c);
    if !skipVisible {
      AnnounceVisible(n, c, S, d);
    } else {
      OffByNothing(m, false, n);
      NothingAbove(m, d, null, d[c]);
    }
    DriftAt(m, Snap(S), false, d, d[c], c);
    assert Snap(S)[c] == CellOf(c);
    SameCell(m, Snap(S), c, true);
    OtherDimension(m, Snap(S), false, d, d[c], n, Share(m, c, true));
  }

  method Announce(n: Node, c: Node, skipVisible: bool, ghost S: set<Node>, ghost d: Depths)
    requires Wired(Snap(S), d, null) && n in S && c in S && c.parent == n && (skipVisible ==> c.removed)
    requires OffBy(Snap(S), false, n, Share(Snap(S), c, false)) && OffBy(Snap(S), true, n, Share(Snap(S), c, true))
    modifies S
    ensures Wired(Snap(S), d, null) && Exact(Snap(S), true) && SameStructure(old(Snap(S)), Snap(S))
    ensures Exact(Snap(S), false) <==> skipVisible || !old(c.removed) || old(PaddedLength(c, false)) == 0
    ensures RootDue(old(Snap(S)), Snap(S), d, old(PaddedLength(c, true)), n, null)
  {
    hide Wired, OffBy, OnlyAbove, RootDue, SameStructure, Share;
    ghost var m, delta := Snap(S), PaddedLength(c, true);
    AnnounceShown(n, c, skipVisible, S, d);
    ghost var m1, h := Snap(S), d[c];
    AnnounceTotal(n, c, S, d);
    OtherDimension(m1, Snap(S), true, d, h, null, 0);
    AboveStructure(m, m1, false, d, h);
    AboveStructure(m1, Snap(S), true, d, h);
    StructureTwice(m, m1, Snap(S));
    RootDueEarlier(m, m1, Snap(S), d, h, delta, n);
  }

  lemma OffByNothing(m: Store, all: bool, off: Node?)
    requires OffBy(m, all, off, 0)
    ensures Exact(m, all)
  {
    forall n | n in m ensures Balanced(m, all, n, 0) {
      OffAt(m, all, off, 0, n);
    }
  }

  lemma NothingAbove(m: Store, d: Depths, loose: Node?, h: int)
    requires Wired(m, d, loose)
    ensures OnlyAbove(m, m, false, d, h)
  {
  }

  lemma StructureTwice(m: Store, m1: Store, m2: Store)
    requires SameStructure(m, m1) && SameStructure(m1, m2)
    ensures SameStructure(m, m2)
  {
  }

  lemma RootDueEarlier(m: Store, m1: Store, m2: Store, d: Depths, h: int, delta: int, start: Node)
    requires OnlyAbove(m, m1, false, d, h) && RootDue(m1, m2, d, delta, start, null)
    ensures RootDue(m, m2, d, delta, start, null)
  {
    assert m1.Keys == m.Keys == d.Keys;
    hide OnlyAbove;
    SameRoot(m, m1, d, false, h, start);
    DriftAt(m, m1, false, d, h, Root(m, d, start));
  }

  /** Inserts a node that is in no tree; the visible lengths stay right exactly if it is live, or adds nothing. */
  method InsertAt(n: Node, c: Node, offset: int, ghost S: set<Node>, ghost d: Depths)
      returns (r: Outcome, ghost d': Depths)
    requires Forest(Snap(S), d) && n in S && c in S && n in d && c.parent == null && !Under(Snap(S), d, n, c)
             && 0 <= offset
    modifies S
    ensures n.text ==> r == TextHasNoChildren && Snap(S) == old(Snap(S)) && d' == d
    ensures !n.text ==>
              && r == Done && 0 <= old(SpliceAt(n, offset)) <= old(|n.children|)
              && SameStructure(Attached(old(Snap(S)), n, old(SpliceAt(n, offset)), c), Snap(S))
              && Wired(Snap(S), d', null) && Exact(Snap(S), true)
              && (Exact(Snap(S), false) <==> !old(c.removed) || old(PaddedLength(c, false)) == 0)
  {
    d' := d;
    if n.text {
      return TextHasNoChildren, d;
    }
    assert Snap(S)[n] == CellOf(n) && Snap(S)[c] == CellOf(c);
    assert CanAttach(Snap(S), d, n, c);
    hide Forest, CanAttach, Wired, OffBy, Attached, SameStructure, Under, RootDue, Exact;
    d' := AttachAndAnnounce(n, c, offset, false, S, d);
    return Done, d';
  }

  method InsertBefore(n: Node, c: Node, reference: Node, ghost S: set<Node>, ghost d: Depths)
      returns (r: Outcome, ghost d': Depths)
    requires Forest(Snap(S), d) && n in S && c in S && n in d && c.parent == null && !Under(Snap(S), d, n, c)
    modifies S
    ensures r == if n.text then TextHasNoChildren else if reference !in old(n.children) then ChildNotFound else Done
    ensures r != Done ==> Snap(S) == old(Snap(S)) && d' == d
    ensures r == Done ==> exists k ::
              && 0 <= k < |old(n.children)| && old(n.children)[k] == reference
              && SameStructure(Attached(old(Snap(S)), n, k, c), Snap(S))
              && Wired(Snap(S), d', null) && Exact(Snap(S), true)
              && (Exact(Snap(S), false) <==> !old(c.removed) || old(PaddedLength(c, false)) == 0)
  {
    d' := d;
    if n.text {
      return TextHasNoChildren, d;
    }
    var offset := OffsetOfChild(n, reference);
    if offset == -1 {
      return ChildNotFound, d;
    }
    hide Forest, Wired, OffBy, Attached, SameStructure, Under, Exact;
    r, d' := InsertAt(n, c, offset, S, d);
  }

  method InsertAfter(n: Node, c: Node, reference: Node, ghost S: set<Node>, ghost d: Depths)
      returns (r: Outcome, ghost d': Depths)
    requires Forest(Snap(S), d) && n in S && c in S && n in d && c.parent == null && !Under(Snap(S), d, n, c)
    modifies S
    ensures r == if n.text then TextHasNoChildren else if reference !in old(n.children) then ChildNotFound else Done
    ensures r != Done ==> Snap(S) == old(Snap(S)) && d' == d
    ensures r == Done ==> exists k ::
              && 0 <= k < |old(n.children)| && old(n.children)[k] == reference
              && SameStructure(Attached(old(Snap(S)), n, k + 1, c), Snap(S))
              && Wired(Snap(S), d', null) && Exact(Snap(S), true)
              && (Exact(Snap(S), false) <==> !old(c.removed) || old(PaddedLength(c, false)) == 0)
  {
    d' := d;
    if n.text {
      return TextHasNoChildren, d;
    }
    var offset := OffsetOfChild(n, reference);
    if offset == -1 {
      return ChildNotFound, d;
    }
    hide Forest, Wired, OffBy, Attached, SameStructure, Under, Exact;
    ghost var k := offset;
    r, d' := InsertAt(n, c, offset + 1, S, d);
    assert 0 <= k < |old(n.children)| && old(n.children)[k] == reference;
  }

  // ---- Letting a child go ---------------------------------------------------------------------------------

  ghost predicate NowhereListed(m: Store, c: Node) {
    forall x :: x in m ==> c !in m[x].children
  }

  /** `c` has been struck from the children of `n`, it still knows its parent, and the lengths above do not know. */
  ghost predicate Struck(m: Store, d: Depths, n: Node, c: Node) {
    && n in m && c in m && m[c].parent == n && Wired(m, d, c) && NowhereListed(m, c)
    && OffBy(m, false, n, -Share(m, c, false)) && OffBy(m, true, n, -Share(m, c, true))
  }

  lemma UnlistedNowhere(m: Store, d: Depths, n: Node, k: int)
    requires Wired(m, d, null) && n in m && 0 <= k < |m[n].children|
    ensures m[n].children[k] in m && m[n].children[k] != n && m[m[n].children[k]].parent == n
    ensures NowhereListed(Unlisted(m, n, k), m[n].children[k])
  {
    var m', c := Unlisted(m, n, k), m[n].children[k];
    hide Wired;
    assert c in m[n].children;
    At(m, d, null, n);
    At(m, d, null, c);
    CutOnce(m[n].children, k);
    hide NoTwice;
    forall x | x in m' ensures c !in m'[x].children {
      At(m, d, null, x);
    }
  }

  lemma UnlistedStruck(m: Store, d: Depths, n: Node, k: int)
    requires Forest(m, d) && n in m && 0 <= k < |m[n].children|
    ensures Struck(Unlisted(m, n, k), d, n, m[n].children[k])
  {
    hide Wired, OffBy, NowhereListed;
    UnlistedNowhere(m, d, n, k);
    UnlistedWired(m, d, n, k);
    UnlistedOff(m, n, k, false);
    UnlistedOff(m, n, k, true);
  }

  method Unlist(n: Node, offset: int, ghost S: set<Node>)
    requires n in S && 0 <= offset < |n.children|
    modifies S
    ensures Snap(S) == Unlisted(old(Snap(S)), n, offset)
  {
    n.children := n.children[..offset] + n.children[offset + 1..];
  }

  /** What a length walk leaves of a struck child. */
  ghost predicate StillStruck(m: Store, d: Depths, n: Node, c: Node) {
    n in m && c in m && m[c].parent == n && Wired(m, d, c) && NowhereListed(m, c)
  }

  lemma WalkedStruck(m: Store, m': Store, d: Depths, n: Node, c: Node, all: bool)
    requires StillStruck(m, d, n, c) && Wired(m', d, c) && c in d && OnlyAbove(m, m', all, d, d[c])
    ensures StillStruck(m', d, n, c) && m'[c] == m[c]
  {
    assert m'.Keys == m.Keys;
    hide Wired, OnlyAbove;
    DriftAt(m, m', all, d, d[c], c);
    forall x | x in m' ensures c !in m'[x].children {
      DriftAt(m, m', all, d, d[c], x);
    }
  }

  /** Takes the total length of a struck child off its ancestors. */
  method RetractTotal(n: Node, c: Node, ghost S: set<Node>, ghost d: Depths)
    requires StillStruck(Snap(S), d, n, c) && OffBy(Snap(S), true, n, -Share(Snap(S), c, true))
    modifies S
    ensures c in d && StillStruck(Snap(S), d, n, c) && OnlyAbove(old(Snap(S)), Snap(S), true, d, d[c])
            && Exact(Snap(S), true)
    ensures RootDue(old(Snap(S)), Snap(S), d, -old(PaddedLength(c, true)), n, null) && CellOf(c) == old(CellOf(c))
  {
    ghost var m := Snap(S);
    assert m[c] == CellOf(c) && Share(m, c, true) == PaddedLength(c, true);
    hide Wired, OnlyAbove, OffBy, Share, RootDue, NowhereListed;
    UpdateAncestorsLength(c, -PaddedLength(c, true), true, S, d, c);
    WalkedStruck(m, Snap(S), d, n, c, true);
    assert Snap(S)[c] == CellOf(c);
  }

  /** Takes the visible length of a struck child off its ancestors, unless it is a tombstone and was never in it. */
  method RetractShown(n: Node, c: Node, ghost S: set<Node>, ghost d: Depths)
    requires n in S && c in S && c.parent == n && Wired(Snap(S), d, c)
             && OffBy(Snap(S), false, n, -Share(Snap(S), c, false))
    modifies S
    ensures c in d && Wired(Snap(S), d, c) && OnlyAbove(old(Snap(S)), Snap(S), false, d, d[c]) && Exact(Snap(S), false)
  {
    ghost var m := Snap(S);
    assert m[c] == CellOf(c) && Share(m, c, false) == if c.removed then 0 else PaddedLength(c, false);
    hide Wired, OnlyAbove, OffBy, Share;
    At(m, d, c, c);
    if !c.removed {
      UpdateAncestorsLength(c, -PaddedLength(c, false), false, S, d, c);
    } else {
      OffByNothing(m, false, n);
      NothingAbove(m, d, c, d[c]);
    }
  }

  method RetractVisible(n: Node, c: Node, ghost S: set<Node>, ghost d: Depths)
    requires StillStruck(Snap(S), d, n, c) && OffBy(Snap(S), false, n, -Share(Snap(S), c, false))
    requires OffBy(Snap(S), true, n, -Share(Snap(S), c, true))
    modifies S
    ensures c in d && StillStruck(Snap(S), d, n, c) && OnlyAbove(old(Snap(S)), Snap(S), false, d, d[c])
            && Exact(Snap(S), false)
    ensures OffBy(Snap(S), true, n, -Share(Snap(S), c, true)) && CellOf(c) == old(CellOf(c))
  {
    ghost var m := Snap(S);
    assert m[c] == CellOf(c);
    assert n in S && c in S && c.parent == n && Wired(m, d, c);
    hide Wired, OnlyAbove, OffBy, Share, StillStruck;
    RetractShown(n, c, S, d);
    WalkedStruck(m, Snap(S), d, n, c, false);
    assert Snap(S)[c] == CellOf(c);
    SameCell(m, Snap(S), c, true);
    OtherDimension(m, Snap(S), false, d, d[c], n, -Share(m, c, true));
  }

  lemma OrphanedForest(m: Store, d: Depths, n: Node, c: Node)
    requires StillStruck(m, d, n, c)
    ensures c in d && Wired(Orphaned(m, c), Raised(m, d, c), null)
    ensures forall all :: Exact(Orphaned(m, c), all) <==> Exact(m, all)
  {
    At(m, d, c, c);
    OrphanedWired(m, d, c);
    hide Wired, Orphaned, Exact, Raised;
    OrphanedOff(m, c, false);
    OrphanedOff(m, c, true);
    forall all ensures Exact(Orphaned(m, c), all) <==> Exact(m, all) {
      if all { assert all == true; } else { assert all == false; }
    }
  }

  method Orphan(c: Node, ghost S: set<Node>)
    requires c in S
    modifies S
    ensures Snap(S) == Orphaned(old(Snap(S)), c)
  {
    c.parent := null;
  }

  lemma OrphanedStructure(m: Store, m': Store, c: Node)
    requires c in m && SameStructure(m, m')
    ensures c in m' && SameStructure(Orphaned(m, c), Orphaned(m', c))
  {
  }

  /** A child that stands nowhere in the visible lengths of its parent. */
  lemma StillExact(m: Store, m': Store, d: Depths, n: Node, c: Node, h: int)
    requires Struck(m, d, n, c) && OnlyAbove(m, m', true, d, h)
    ensures Exact(m', false) <==> Share(m, c, false) == 0
  {
    hide Wired, OnlyAbove, NowhereListed, Share;
    var short := -Share(m, c, false);
    OtherDimension(m, m', true, d, h, n, short);
    OtherDimension(m, m', true, d, h, null, 0);
    OffAt(m, false, n, short, n);
    if Exact(m, false) { OffAt(m, false, null, 0, n); }
    if short == 0 { OffByNothing(m, false, n); }
  }

  /** Purges a child. Total lengths lose it; the visible ones stay right exactly if it was not counted there. */
  method RemoveChild(n: Node, child: Node, ghost S: set<Node>, ghost d: Depths) returns (r: Outcome, ghost d': Depths)
    requires Forest(Snap(S), d) && n in S && child in S
    modifies S
    ensures r == if n.text then TextHasNoChildren else if child !in old(n.children) then ChildNotFound else Done
    ensures r != Done ==> Snap(S) == old(Snap(S)) && d' == d
    ensures r == Done ==> exists k ::
              && 0 <= k < |old(n.children)| && old(n.children)[k] == child
              && SameStructure(Orphaned(Unlisted(old(Snap(S)), n, k), child), Snap(S))
              && Wired(Snap(S), d', null) && Exact(Snap(S), true)
              && (Exact(Snap(S), false) <==> old(child.removed) || old(PaddedLength(child, false)) == 0)
  {
    d' := d;
    if n.text {
      return TextHasNoChildren, d;
    }
    var offset := OffsetOfChild(n, child);
    if offset == -1 {
      return ChildNotFound, d;
    }
    hide Forest, Wired, OffBy, SameStructure, Exact, Unlisted, Orphaned;
    d' := Purge(n, child, offset, S, d);
    return Done, d';
  }

  method Purge(n: Node, child: Node, offset: int, ghost S: set<Node>, ghost d: Depths) returns (ghost d': Depths)
    requires Forest(Snap(S), d) && n in S && child in S && 0 <= offset < |n.children| && n.children[offset] == child
    modifies S
    ensures SameStructure(Orphaned(Unlisted(old(Snap(S)), n, offset), child), Snap(S))
    ensures Wired(Snap(S), d', null) && Exact(Snap(S), true)
    ensures Exact(Snap(S), false) <==> old(child.removed) || old(PaddedLength(child, false)) == 0
  {
    hide Forest, Wired, OffBy, Exact, SameStructure, Unlisted, Orphaned, Struck;
    Strike(n, child, offset, S, d);
    d' := PurgeStruck(n, child, S, d);
  }

  method Strike(n: Node, child: Node, offset: int, ghost S: set<Node>, ghost d: Depths)
    requires Forest(Snap(S), d) && n in S && child in S && 0 <= offset < |n.children| && n.children[offset] == child
    modifies S
    ensures Snap(S) == Unlisted(old(Snap(S)), n, offset) && Struck(Snap(S), d, n, child)
            && CellOf(child) == old(CellOf(child))
  {
    ghost var m := Snap(S);
    assert m[n] == CellOf(n) && m[child] == CellOf(child);
    UnlistedStruck(m, d, n, offset);
    UnlistedCell(m, d, n, offset);
    hide Forest, Struck;
    Unlist(n, offset, S);
    assert Snap(S)[child] == CellOf(child);
  }

  lemma UnlistedCell(m: Store, d: Depths, n: Node, k: int)
    requires Forest(m, d) && n in m && 0 <= k < |m[n].children|
    ensures m[n].children[k] in m && Unlisted(m, n, k)[m[n].children[k]] == m[m[n].children[k]]
  {
    UnlistedNowhere(m, d, n, k);
  }

  method PurgeStruck(n: Node, child: Node, ghost S: set<Node>, ghost d: Depths) returns (ghost d': Depths)
    requires Struck(Snap(S), d, n, child) && child in S
    modifies S
    ensures SameStructure(Orphaned(old(Snap(S)), child), Snap(S))
    ensures Wired(Snap(S), d', null) && Exact(Snap(S), true)
    ensures Exact(Snap(S), false) <==> old(child.removed) || old(PaddedLength(child, false)) == 0
  {
    ghost var m1 := Snap(S);
    assert m1[child] == CellOf(child);
    assert Share(m1, child, false) == if child.removed then 0 else PaddedLength(child, false);
    assert StillStruck(m1, d, n, child) && OffBy(m1, true, n, -Share(m1, child, true));
    hide Wired, OffBy, SameStructure, Orphaned, Share, Struck, StillStruck, OnlyAbove, RootDue;
    RetractTotal(n, child, S, d);
    ghost var m2 := Snap(S);
    StillExact(m1, m2, d, n, child, d[child]);
    OrphanedForest(m2, d, n, child);
    AboveStructure(m1, m2, true, d, d[child]);
    OrphanedStructure(m1, m2, child);
    Orphan(child, S);
    d' := Raised(m2, d, child);
  }

  // ---- Moving a child ----------------------------------------------------------------------------------------

  ghost function Without(s: seq<Node>, c: Node): (r: seq<Node>) {
    if s == [] then [] else if s[0] == c then s[1..] else [s[0]] + Without(s[1..], c)
  }

  lemma {:induction false} WithoutIsCut(s: seq<Node>, k: int)
    requires NoTwice(s) && 0 <= k < |s|
    ensures Without(s, s[k]) == s[..k] + s[k + 1..]
  {
    if k > 0 {
      assert s[0] != s[k];
      WithoutIsCut(s[1..], k - 1);
      assert s[1..][k - 1] == s[k] && s[1..][..k - 1] == s[1..k] && s[1..][k..] == s[k + 1..];
    }
  }

  /** `m` with `c` taken off its parent, if it has one. */
  ghost function Freed(m: Store, c: Node): (m': Store)
    requires c in m
  {
    var p := m[c].parent;
    if p == null || p !in m then m else Orphaned(m[p := m[p].(children := Without(m[p].children, c))], c)
  }

  lemma FreedIs(m: Store, d: Depths, p: Node, k: int)
    requires Wired(m, d, null) && p in m && 0 <= k < |m[p].children|
    ensures m[p].children[k] in m && m[m[p].children[k]].parent == p && m[p].children[k] in Unlisted(m, p, k)
    ensures Freed(m, m[p].children[k]) == Orphaned(Unlisted(m, p, k), m[p].children[k])
  {
    assert m[p].children[k] in m[p].children;
    At(m, d, null, p);
    WithoutIsCut(m[p].children, k);
    hide Wired;
  }

  /** The total length of the root of `start` changed by `delta`. */
  ghost predicate RootGained(m: Store, m': Store, d: Depths, delta: int, start: Node) {
    start in m && start in d && Root(m, d, start) in m && Root(m, d, start) in m'
      && m'[Root(m, d, start)].total == m[Root(m, d, start)].total + delta
  }

  /** Takes a struck child's lengths off both dimensions of its ancestors. */
  method RetractBoth(n: Node, child: Node, ghost S: set<Node>, ghost d: Depths)
    requires StillStruck(Snap(S), d, n, child)
    requires OffBy(Snap(S), false, n, -Share(Snap(S), child, false))
             && OffBy(Snap(S), true, n, -Share(Snap(S), child, true))
    modifies S
    ensures StillStruck(Snap(S), d, n, child) && Exact(Snap(S), false) && Exact(Snap(S), true)
    ensures SameStructure(old(Snap(S)), Snap(S)) && CellOf(child) == old(CellOf(child))
    ensures RootDue(old(Snap(S)), Snap(S), d, -old(PaddedLength(child, true)), n, null)
  {
    hide Wired, OffBy, SameStructure, Share, StillStruck, OnlyAbove, RootDue;
    ghost var m1, delta := Snap(S), PaddedLength(child, true);
    RetractVisible(n, child, S, d);
    ghost var m2, h := Snap(S), d[child];
    RetractTotal(n, child, S, d);
    ghost var m3 := Snap(S);
    OtherDimension(m2, m3, true, d, h, null, 0);
    AboveStructure(m1, m2, false, d, h);
    AboveStructure(m2, m3, true, d, h);
    StructureTwice(m1, m2, m3);
    RootDueEarlier(m1, m2, m3, d, h, -delta, n);
  }

  /** Takes a struck child's lengths off its ancestors, and lets it go. */
  method Release(n: Node, child: Node, ghost S: set<Node>, ghost d: Depths) returns (ghost d': Depths)
    requires Struck(Snap(S), d, n, child) && child in S
    modifies S
    ensures SameStructure(Orphaned(old(Snap(S)), child), Snap(S)) && Forest(Snap(S), d')
    ensures CellOf(child) == old(CellOf(child)).(parent := null)
    ensures RootGained(old(Snap(S)), Snap(S), d, -old(PaddedLength(child, true)), n)
  {
    ghost var m1, delta := Snap(S), PaddedLength(child, true);
    assert StillStruck(m1, d, n, child);
    hide Wired, OffBy, SameStructure, Orphaned, Share, StillStruck, RootDue, NowhereListed;
    RetractBoth(n, child, S, d);
    ghost var m3 := Snap(S);
    d' := ReleasedDepths(m3, d, n, child);
    OrphanedStructure(m1, m3, child);
    RootReleased(m1, m3, d, -delta, n, child);
    hide RootGained, Forest, Exact;
    OrphanCell(child, S);
  }

  lemma ReleasedDepths(m: Store, d: Depths, n: Node, c: Node) returns (d': Depths)
    requires StillStruck(m, d, n, c) && Exact(m, false) && Exact(m, true)
    ensures c in m && Forest(Orphaned(m, c), d')
  {
    hide Wired, OffBy, Orphaned;
    OrphanedForest(m, d, n, c);
    d' := Raised(m, d, c);
  }

  lemma RootReleased(m: Store, m3: Store, d: Depths, delta: int, n: Node, c: Node)
    requires RootDue(m, m3, d, delta, n, null) && c in m3
    ensures RootGained(m, Orphaned(m3, c), d, delta, n)
  {
  }

  method OrphanCell(c: Node, ghost S: set<Node>)
    requires c in S
    modifies S
    ensures Snap(S) == Orphaned(old(Snap(S)), c) && CellOf(c) == old(CellOf(c)).(parent := null)
  {
    c.parent := null;
  }

  method DetachFrom(parent: Node, child: Node, ghost S: set<Node>, ghost d: Depths) returns (ghost d': Depths)
    requires Forest(Snap(S), d) && parent in S && child in S && child.parent == parent && child in parent.children
             && parent in d
    modifies S
    ensures SameStructure(Freed(old(Snap(S)), child), Snap(S)) && Forest(Snap(S), d')
    ensures CellOf(child) == old(CellOf(child)).(parent := null)
    ensures RootGained(old(Snap(S)), Snap(S), d, -old(PaddedLength(child, true)), parent)
  {
    ghost var m, delta := Snap(S), PaddedLength(child, true);
    assert m[parent] == CellOf(parent) && Wired(m, d, null);
    hide Wired, OffBy, Struck, SameStructure, Freed, RootGained, Orphaned, Unlisted, Forest;
    var offset := OffsetOfChild(parent, child);
    FreedIs(m, d, parent, offset);
    Strike(parent, child, offset, S, d);
    ghost var m1 := Snap(S);
    d' := Release(parent, child, S, d);
    RootUnlisted(m, m1, Snap(S), d, parent, offset, -delta);
  }

  /** Takes the child off its parent, if it has one; says whether it is a tombstone. */
  method DetachForMove(child: Node, ghost S: set<Node>, ghost d: Depths) returns (removed: bool, ghost d': Depths)
    requires Forest(Snap(S), d) && child in S
    modifies S
    ensures removed == old(child.removed) && SameStructure(Freed(old(Snap(S)), child), Snap(S)) && Forest(Snap(S), d')
    ensures CellOf(child) == old(CellOf(child)).(parent := null)
    ensures old(child.parent) != null ==>
              RootGained(old(Snap(S)), Snap(S), d, -old(PaddedLength(child, true)), old(child.parent))
  {
    removed := child.removed;
    d' := d;
    ghost var m := Snap(S);
    assert m[child] == CellOf(child);
    assert Wired(m, d, null);
    hide Wired, OffBy, SameStructure, RootGained, Orphaned, Forest;
    if child.parent == null {
      StructureItself(m);
      return removed, d;
    }
    At(m, d, null, child);
    assert m[child.parent] == CellOf(child.parent);
    hide Freed;
    d' := DetachFrom(child.parent, child, S, d);
  }

  lemma StructureItself(m: Store)
    ensures SameStructure(m, m)
  {
  }

  lemma {:induction false} UnlistedRoot(m: Store, d: Depths, n: Node, k: int, x: Node)
    requires n in m && 0 <= k < |m[n].children| && x in m && x in d
    ensures x in Unlisted(m, n, k) && Root(Unlisted(m, n, k), d, x) == Root(m, d, x)
    decreases d[x]
  {
    var p := m[x].parent;
    if p != null && p in m && p in d && d[p] < d[x] {
      UnlistedRoot(m, d, n, k, p);
    }
  }

  lemma RootUnlisted(m: Store, m1: Store, m2: Store, d: Depths, n: Node, k: int, delta: int)
    requires n in m && n in d && 0 <= k < |m[n].children| && m1 == Unlisted(m, n, k) && RootGained(m1, m2, d, delta, n)
    ensures RootGained(m, m2, d, delta, n)
  {
    UnlistedRoot(m, d, n, k, n);
  }

  /** Outside the subtree of `c`, nothing is nearer to `c` or to another root than before. */
  lemma {:induction false} OutsideKept(m: Store, d: Depths, m': Store, d': Depths, c: Node, x: Node)
    requires Wired(m, d, null) && Wired(m', d', null) && x in m && x in m' && x in d && x in d' && !Under(m, d, x, c)
    requires m'.Keys == m.Keys && forall y :: y in m && y in m' && y != c ==> m'[y].parent == m[y].parent
    ensures !Under(m', d', x, c) && Root(m', d', x) == Root(m, d, x)
    decreases d[x]
  {
    hide Wired, ChildrenOk;
    At(m, d, null, x);
    At(m', d', null, x);
    var p := m[x].parent;
    if p != null {
      UnderParent(m, d, null, x, c);
      UnderParent(m', d', null, x, c);
      OutsideKept(m, d, m', d', c, p);
    }
  }

  /** Only `c` changes its parent when it is freed, and when it is attached. */
  lemma FreedParents(m: Store, m': Store, c: Node)
    requires c in m && SameStructure(Freed(m, c), m')
    ensures m'.Keys == m.Keys && forall y :: y in m && y in m' && y != c ==> m'[y].parent == m[y].parent
  {
    var f := Freed(m, c);
    assert f.Keys == m.Keys;
    forall y | y in m && y in m' && y != c ensures m'[y].parent == m[y].parent {
      assert m'[y] == f[y].(visible := m'[y].visible, total := m'[y].total);
    }
  }

  lemma AttachedParents(m: Store, n: Node, k: int, c: Node)
    requires n in m && c in m && 0 <= k <= |m[n].children|
    ensures Attached(m, n, k, c).Keys == m.Keys
    ensures forall y :: y in m && y != c ==> Attached(m, n, k, c)[y].parent == m[y].parent
  {
  }

  lemma AttachedStructure(m: Store, m': Store, m'': Store, n: Node, k: int, c: Node)
    requires n in m && n in m' && c in m && c in m' && n != c && SameStructure(m, m') && 0 <= k <= |m'[n].children|
    requires SameStructure(Attached(m', n, k, c), m'')
    ensures m'[n].children == m[n].children && SameStructure(Attached(m, n, k, c), m'')
  {
    hide SameStructure;
    KeysStructure(m, m');
    CellStructure(m, m', n);
    CellStructure(m, m', c);
    var a, a' := Attached(m, n, k, c), Attached(m', n, k, c);
    KeysStructure(a', m'');
    forall x | x in a && x in m'' ensures Resized(a[x], m''[x]) {
      CellStructure(m, m', x);
      CellStructure(a', m'', x);
    }
    StructureFrom(a, m'');
  }

  ghost predicate Resized(x: Cell, y: Cell) {
    y == x.(visible := y.visible, total := y.total)
  }

  lemma StructureFrom(m: Store, m': Store)
    requires m'.Keys == m.Keys && forall n :: n in m && n in m' ==> Resized(m[n], m'[n])
    ensures SameStructure(m, m')
  {
    forall n | n in m && n in m' ensures m'[n] == m[n].(visible := m'[n].visible, total := m'[n].total) {
      assert Resized(m[n], m'[n]);
    }
  }

  lemma KeysStructure(m: Store, m': Store)
    requires SameStructure(m, m')
    ensures m'.Keys == m.Keys
  {
  }

  lemma CellStructure(m: Store, m': Store, x: Node)
    requires SameStructure(m, m') && x in m
    ensures x in m' && m'[x] == m[x].(visible := m'[x].visible, total := m'[x].total)
  {
  }

  /** `c` now stands at place `k` among the children of `n`, and nowhere else; all else is as it was. */
  ghost predicate MovedTo(m: Store, m': Store, n: Node, k: int, c: Node) {
    && n in m && c in m && n != c && n in Freed(m, c) && c in Freed(m, c)
    && 0 <= k <= |Freed(m, c)[n].children| && SameStructure(Attached(Freed(m, c), n, k, c), m')
  }

  /** A move within one tree leaves its root's total length alone. */
  ghost predicate RootConserved(m: Store, m': Store, d: Depths, n: Node, c: Node) {
    && n in m && n in d && c in m && c in d
    && (m[c].parent != null && Root(m, d, c) == Root(m, d, n) ==>
          Root(m, d, n) in m && Root(m, d, n) in m' && m'[Root(m, d, n)].total == m[Root(m, d, n)].total)
  }

  /** The total length of what was the root of `n` in `m0` changed by `delta`. */
  ghost predicate RootRaised(m0: Store, d0: Depths, m: Store, m': Store, n: Node, delta: int) {
    && n in m0 && n in d0 && Root(m0, d0, n) in m && Root(m0, d0, n) in m'
    && m'[Root(m0, d0, n)].total == m[Root(m0, d0, n)].total + delta
  }

  lemma AttachedRoot(m0: Store, d0: Depths, m: Store, d: Depths, m': Store, n: Node, k: int, c: Node, delta: int)
    requires n in m0 && n in d0 && n in m && n in d && c in m && n != c && 0 <= k <= |m[n].children|
    requires Root(m, d, n) == Root(m0, d0, n) && CanAttach(m, d, n, c) && Wired(m, d, null)
    requires RootDue(Attached(m, n, k, c), m', Deepened(m, d, c, d[n] + 1), delta, n, null)
    ensures RootRaised(m0, d0, m, m', n, delta)
  {
    var a, e := Attached(m, n, k, c), Deepened(m, d, c, d[n] + 1);
    AttachedWired(m, d, n, k, c);
    AttachedParents(m, n, k, c);
    hide Wired;
    OutsideKept(m, d, a, e, c, n);
  }

  /** The second half of a move: into the new parent, and up its ancestors. */
  method MoveInto(n: Node, child: Node, offset: int, removed: bool, ghost m0: Store, ghost d0: Depths,
      ghost S: set<Node>, ghost d: Depths)
    returns (ghost d': Depths)
    requires Wired(m0, d0, null) && n in m0 && n in d0 && child in m0 && !Under(m0, d0, n, child)
    requires n in S && child in S && !n.text && Forest(Snap(S), d) && SameStructure(Freed(m0, child), Snap(S))
    requires child.parent == null && child.removed == removed && 0 <= offset
    modifies S
    ensures 0 <= old(SpliceAt(n, offset)) <= old(|n.children|) && Forest(Snap(S), d')
    ensures MovedTo(m0, Snap(S), n, old(SpliceAt(n, offset)), child)
    ensures RootRaised(m0, d0, old(Snap(S)), Snap(S), n, old(PaddedLength(child, true)))
  {
    ghost var m, k, delta := Snap(S), SpliceAt(n, offset), PaddedLength(child, true);
    assert m[n] == CellOf(n) && m[child] == CellOf(child);
    FreedParents(m0, m, child);
    assert Wired(m, d, null);
    At(m, d, null, n);
    hide Wired, OffBy;
    OutsideKept(m0, d0, m, d, child, n);
    hide Under;
    assert CanAttach(m, d, n, child);
    assert n != child by { CanAttachIn(m, d, n, child); }
    hide CanAttach, SameStructure, RootDue, Attached, Deepened, Freed;
    d' := AttachAndAnnounce(n, child, offset, removed, S, d);
    AttachedStructure(Freed(m0, child), m, Snap(S), n, k, child);
    AttachedRoot(m0, d0, m, d, Snap(S), n, k, child, delta);
  }

  lemma Conserved(m: Store, d: Depths, m1: Store, m2: Store, n: Node, c: Node, delta: int)
    requires Wired(m, d, null) && n in m && n in d && c in m && c in d && RootRaised(m, d, m1, m2, n, delta)
    requires m[c].parent != null ==> RootGained(m, m1, d, -delta, m[c].parent)
    ensures RootConserved(m, m2, d, n, c)
  {
    At(m, d, null, c);
  }

  /** Moves a child, live or tombstone, to the end of the children of `n`. */
  method MoveChild(n: Node, child: Node, ghost S: set<Node>, ghost d: Depths) returns (r: Outcome, ghost d': Depths)
    requires Forest(Snap(S), d) && n in S && child in S && n in d && !Under(Snap(S), d, n, child)
    modifies S
    ensures n.text ==> r == TextHasNoChildren && Snap(S) == old(Snap(S)) && d' == d
    ensures !n.text ==>
              && r == Done && Forest(Snap(S), d') && RootConserved(old(Snap(S)), Snap(S), d, n, child)
              && exists k :: k == |Freed(old(Snap(S)), child)[n].children|
                  && MovedTo(old(Snap(S)), Snap(S), n, k, child)
  {
    d' := d;
    if n.text {
      return TextHasNoChildren, d;
    }
    ghost var m, delta := Snap(S), PaddedLength(child, true);
    MoveFacts(S, d, n, child);
    hide Forest, Wired, OffBy, SameStructure, Freed, RootGained, Under, MovedTo, RootRaised, RootConserved;
    var removed;
    removed, d' := DetachForMove(child, S, d);
    ghost var m1 := Snap(S);
    SameChildren(m, m1, S, n, child);
    ghost var k := |n.children|;
    d' := MoveInto(n, child, |n.children|, removed, m, d, S, d');
    Conserved(m, d, m1, Snap(S), n, child, delta);
    assert k == |Freed(m, child)[n].children|;
    return Done, d';
  }

  lemma MoveFacts(S: set<Node>, d: Depths, n: Node, c: Node)
    requires Forest(Snap(S), d) && n in S && c in S
    ensures Wired(Snap(S), d, null) && n in d && c in d && n in Freed(Snap(S), c) && Snap(S)[c] == CellOf(c)
  {
    At(Snap(S), d, null, n);
    At(Snap(S), d, null, c);
  }

  lemma SameChildren(m: Store, m1: Store, S: set<Node>, n: Node, c: Node)
    requires c in m && n in S && m1 == Snap(S) && SameStructure(Freed(m, c), m1)
    ensures n in Freed(m, c) && n.children == Freed(m, c)[n].children
  {
    assert m1[n] == CellOf(n);
  }

  /** Moves a child, live or tombstone, to just before `reference`; every failure leaves the forest as it was. */
  method MoveChildBefore(n: Node, child: Node, reference: Node, ghost S: set<Node>, ghost d: Depths)
      returns (r: Outcome, ghost d': Depths)
    requires Forest(Snap(S), d) && n in S && child in S && n in d && !Under(Snap(S), d, n, child)
    modifies S
    ensures r == if n.text then TextHasNoChildren
                 else if child != reference && reference !in old(n.children) then ChildNotFound else Done
    ensures r != Done || child == reference ==> Snap(S) == old(Snap(S)) && d' == d
    ensures r == Done && child != reference ==>
              && Forest(Snap(S), d') && RootConserved(old(Snap(S)), Snap(S), d, n, child)
              && exists k :: MovedTo(old(Snap(S)), Snap(S), n, k, child)
                   && k < |Freed(old(Snap(S)), child)[n].children|
                   && Freed(old(Snap(S)), child)[n].children[k] == reference
  {
    d' := d;
    if n.text {
      return TextHasNoChildren, d;
    }
    if child == reference {
      return Done, d;
    }
    var at := OffsetOfChild(n, reference);
    if at == -1 {
      return ChildNotFound, d;
    }
    hide Forest, Under, MovedTo, RootConserved, Freed;
    ghost var k;
    d', k := PlaceBefore(n, child, reference, S, d);
    return Done, d';
  }

  /** The second half of a move to before `reference`, whose place is looked up only now. */
  method MoveIntoBefore(n: Node, child: Node, reference: Node, removed: bool, ghost m0: Store, ghost d0: Depths,
      ghost S: set<Node>, ghost d: Depths)
    returns (ghost d': Depths, ghost k: int)
    requires Wired(m0, d0, null) && n in m0 && n in d0 && child in m0 && !Under(m0, d0, n, child)
    requires n in S && child in S && !n.text && Forest(Snap(S), d) && SameStructure(Freed(m0, child), Snap(S))
    requires child.parent == null && child.removed == removed && reference in n.children
    modifies S
    ensures 0 <= k < old(|n.children|) && old(n.children)[k] == reference && Forest(Snap(S), d')
    ensures MovedTo(m0, Snap(S), n, k, child)
    ensures RootRaised(m0, d0, old(Snap(S)), Snap(S), n, old(PaddedLength(child, true)))
  {
    var offset := OffsetOfChild(n, reference);
    k := offset;
    assert SpliceAt(n, offset) == k;
    hide Forest, Wired, OffBy, SameStructure, Freed, Under, MovedTo, RootRaised;
    d' := MoveInto(n, child, offset, removed, m0, d0, S, d);
  }

  method PlaceBefore(n: Node, child: Node, reference: Node, ghost S: set<Node>, ghost d: Depths)
      returns (ghost d': Depths, ghost k: int)
    requires Forest(Snap(S), d) && n in S && child in S && n in d && !Under(Snap(S), d, n, child)
    requires !n.text && child != reference && reference in n.children
    modifies S
    ensures Forest(Snap(S), d') && RootConserved(old(Snap(S)), Snap(S), d, n, child)
    ensures n in Freed(old(Snap(S)), child) && 0 <= k < |Freed(old(Snap(S)), child)[n].children|
    ensures MovedTo(old(Snap(S)), Snap(S), n, k, child) && Freed(old(Snap(S)), child)[n].children[k] == reference
  {
    ghost var m, delta := Snap(S), PaddedLength(child, true);
    hide Wired, OffBy, SameStructure, Freed, RootGained, Under, MovedTo, RootRaised, RootConserved;
    MoveFacts(S, d, n, child);
    assert m[n] == CellOf(n);
    FreedKeeps(m, n, child, reference);
    hide Forest;
    var removed;
    removed, d' := DetachForMove(child, S, d);
    ghost var m1 := Snap(S);
    SameChildren(m, m1, S, n, child);
    d', k := MoveIntoBefore(n, child, reference, removed, m, d, S, d');
    Conserved(m, d, m1, Snap(S), n, child, delta);
  }

  /** Freeing a child leaves its siblings where they are. */
  lemma FreedKeeps(m: Store, n: Node, c: Node, x: Node)
    requires n in m && c in m && x in m[n].children && x != c
    ensures n in Freed(m, c) && x in Freed(m, c)[n].children
  {
    WithoutKeeps(m[n].children, c, x);
  }

  lemma {:induction false} WithoutKeeps(s: seq<Node>, c: Node, x: Node)
    requires x in s && x != c
    ensures x in Without(s, c)
  {
    if s[0] != c && s[0] != x {
      WithoutKeeps(s[1..], c, x);
    }
  }

  // ---- A forest read as trees ---------------------------------------------------------------------------

  ghost predicate Bounded(d: Depths, top: nat) {
    forall n :: n in d ==> d[n] <= top
  }

  lemma {:induction false} DepthBound(d: Depths) returns (top: nat)
    ensures Bounded(d, top)
    decreases |d|
  {
    top := 0;
    if d != map[] {
      assert (forall n :: n !in d) ==> d == map[];
      var n :| n in d;
      var rest := d - {n};
      assert rest.Keys == d.Keys - {n};
      var high := DepthBound(rest);
      top := if d[n] > high then d[n] else high;
      forall x | x in d ensures d[x] <= top {
        assert x == n || (x in rest && rest[x] == d[x]);
      }
    }
  }

  lemma ChildBelow(m: Store, d: Depths, n: Node, i: int)
    requires Wired(m, d, null) && n in m && 0 <= i < |m[n].children|
    ensures n in d && m[n].children[i] in m && m[n].children[i] in d && d[m[n].children[i]] == d[n] + 1
  {
    assert m[n].children[i] in m[n].children;
    At(m, d, null, n);
    At(m, d, null, m[n].children[i]);
  }

  /** The tree below `n`, as the queries take it. */
  ghost function Reading(m: Store, d: Depths, top: nat, n: Node): (t: IT.Tree)
    requires Wired(m, d, null) && Bounded(d, top) && n in m
    decreases if n in d then top - d[n] else 0
  {
    var kids := m[n].children;
    IT.Tree(0, m[n].text, m[n].removed, m[n].own, m[n].visible, m[n].total,
            seq(|kids|, i requires 0 <= i < |kids| => ChildBelow(m, d, n, i); Reading(m, d, top, kids[i])))
  }

  /** An element has no length of its own. */
  ghost predicate Fit(m: Store) {
    forall n :: n in m ==> 0 <= m[n].own && (!m[n].text ==> m[n].own == 0)
  }

  lemma ReadingTop(m: Store, d: Depths, top: nat, n: Node)
    requires Wired(m, d, null) && Bounded(d, top) && n in m
    ensures var t := Reading(m, d, top, n);
            && t.text == m[n].text && t.removed == m[n].removed && t.own == m[n].own
            && t.visible == m[n].visible && t.total == m[n].total && |t.kids| == |m[n].children|
  {
  }

  lemma ReadingKid(m: Store, d: Depths, top: nat, n: Node, i: int)
    requires Wired(m, d, null) && Bounded(d, top) && n in m && 0 <= i < |m[n].children|
    ensures m[n].children[i] in m && |Reading(m, d, top, n).kids| == |m[n].children|
    ensures Reading(m, d, top, n).kids[i] == Reading(m, d, top, m[n].children[i])
  {
    ChildBelow(m, d, n, i);
  }

  lemma ShareRead(m: Store, d: Depths, top: nat, c: Node, all: bool)
    requires Wired(m, d, null) && Bounded(d, top) && c in m
    ensures var k := Reading(m, d, top, c);
            Share(m, c, all) == if all || !k.removed then IT.Padded(k, all) else 0
  {
    ReadingTop(m, d, top, c);
  }

  /** What children add up to is what the queries add up. */
  lemma {:induction false} SharesRead(m: Store, d: Depths, top: nat, n: Node, i: int, all: bool)
    requires Wired(m, d, null) && Bounded(d, top) && n in m && 0 <= i <= |m[n].children|
    ensures |Reading(m, d, top, n).kids| == |m[n].children|
    ensures Shares(m, m[n].children[i..], all) == IT.Sum(IT.Shown(Reading(m, d, top, n).kids[i..], all), all)
    decreases |m[n].children| - i
  {
    hide Wired, Bounded, Reading;
    ReadingTop(m, d, top, n);
    var kids, cs := Reading(m, d, top, n).kids, m[n].children;
    if i < |cs| {
      SharesRead(m, d, top, n, i + 1, all);
      ReadingKid(m, d, top, n, i);
      ShareRead(m, d, top, cs[i], all);
      assert cs[i..][0] == cs[i] && cs[i..][1..] == cs[i + 1..];
      assert kids[i..][0] == kids[i] && kids[i..][1..] == kids[i + 1..];
      IT.ShownHead(kids[i..], all);
    }
  }

  /** A forest whose equations hold is, from every node down, a tree as the queries want it. */
  lemma {:induction false} ForestSized(m: Store, d: Depths, top: nat, n: Node)
    requires Forest(m, d) && Bounded(d, top) && Fit(m) && n in m
    ensures IT.Sized(Reading(m, d, top, n))
    decreases if n in d then top - d[n] else 0
  {
    var t := Reading(m, d, top, n);
    ReadingTop(m, d, top, n);
    At(m, d, null, n);
    assert Balanced(m, false, n, 0) && Balanced(m, true, n, 0);
    SharesRead(m, d, top, n, 0, false);
    SharesRead(m, d, top, n, 0, true);
    assert m[n].children[0..] == m[n].children && t.kids[0..] == t.kids;
    forall i | 0 <= i < |t.kids| ensures IT.Sized(t.kids[i]) {
      ChildBelow(m, d, n, i);
      ReadingKid(m, d, top, n, i);
      ForestSized(m, d, top, m[n].children[i]);
    }
  }
}
