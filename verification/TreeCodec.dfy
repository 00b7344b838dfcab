/**
 The wire form of a tree: its nodes in post-order, each with its depth.

 The decoder walks the list backwards. A table keeps the latest node seen at each depth, and a
 node goes to the front of the children of the table's entry one level up.
 */
module TreeCodec {
  import opened IndexTree

  datatype Option<T> = None | Some(value: T)

  datatype Entry = Entry(tag: int, text: bool, removed: bool, own: int, depth: int)

  // ---- Encoding ---------------------------------------------------------------------------

  function EntryOf(t: Tree, depth: int): (e: Entry) {
    Entry(t.tag, t.text, t.removed, t.own, depth)
  }

  /** The nodes of `t` in post-order. */
  function Post(t: Tree, depth: int): (s: seq<Entry>)
    decreases t, 1
  {
    PostKids(t, |t.kids|, depth + 1) + [EntryOf(t, depth)]
  }

  /** The nodes below the first `n` children of `t`. */
  function PostKids(t: Tree, n: int, depth: int): (s: seq<Entry>)
    requires 0 <= n <= |t.kids|
    decreases t, 0, n
  {
    if n == 0 then [] else PostKids(t, n - 1, depth) + Post(t.kids[n - 1], depth)
  }

  /** Appends to `out` from a post-order traversal. */
  method Traverse(t: Tree, depth: int, out: seq<Entry>) returns (out': seq<Entry>)
    ensures out' == out + Post(t, depth)
    decreases t
  {
    out' := out;
    for i := 0 to |t.kids|
      invariant out' == out + PostKids(t, i, depth + 1)
    {
      out' := Traverse(t.kids[i], depth + 1, out');
    }
    out' := out' + [EntryOf(t, depth)];
  }

  method ToTreeNodes(t: Tree) returns (out: seq<Entry>)
    ensures out == Post(t, 0)
  {
    out := Traverse(t, 0, []);
  }

  // ---- Who is whose child in a list ------------------------------------------------------------

  /** Seen backwards from `k`, the first node one level up is `j`. */
  ghost predicate IsKid(L: seq<Entry>, k: int, j: int) {
    && 0 <= k < j < |L| && L[k].depth == L[j].depth + 1
    && forall x :: k < x < j ==> L[x].depth != L[j].depth
  }

  /** The children of `j` among the places from `i` to `e`. */
  ghost function Kids(L: seq<Entry>, j: int, i: int, e: int): (s: seq<int>)
    ensures forall x :: x in s ==> i <= x < e && IsKid(L, x, j)
    decreases e - i
  {
    if i >= e then [] else (if IsKid(L, i, j) then [i] else []) + Kids(L, j, i + 1, e)
  }

  lemma {:induction false} KidsSplit(L: seq<Entry>, j: int, i: int, m: int, e: int)
    requires i <= m <= e
    ensures Kids(L, j, i, e) == Kids(L, j, i, m) + Kids(L, j, m, e)
    decreases m - i
  {
    if i < m {
      KidsSplit(L, j, i + 1, m, e);
    }
  }

  lemma {:induction false} NoKids(L: seq<Entry>, j: int, i: int, e: int)
    requires forall x :: i <= x < e ==> !IsKid(L, x, j)
    ensures Kids(L, j, i, e) == []
    decreases e - i
  {
    if i < e {
      NoKids(L, j, i + 1, e);
    }
  }

  /** The tree the list describes below place `j`, before any length is counted. */
  ghost function Build(L: seq<Entry>, j: int): (t: Tree)
    requires 0 <= j < |L|
    decreases j
  {
    var e, ks := L[j], Kids(L, j, 0, j);
    Tree(e.tag, e.text, e.removed, e.own, e.own, e.own,
        seq(|ks|, i requires 0 <= i < |ks| => assert ks[i] in ks; Build(L, ks[i])))
  }

  /** Seen backwards, a depth is at most one more than the one before, and nothing is as high as the root. */
  ghost predicate Legal(L: seq<Entry>) {
    && |L| > 0
    && forall i :: 0 <= i < |L| - 1 ==> L[|L| - 1].depth + 1 <= L[i].depth <= L[i + 1].depth + 1
  }

  ghost predicate NoTextParents(L: seq<Entry>) {
    forall i, j :: IsKid(L, i, j) ==> !L[j].text
  }

  /** The start of the stretch before `e` that is all deeper than `d`. */
  ghost function Low(L: seq<Entry>, d: int, e: int): (lo: int)
    requires 0 <= e <= |L|
    ensures 0 <= lo <= e
    decreases e
  {
    if e == 0 || L[e - 1].depth <= d then e else Low(L, d, e - 1)
  }

  lemma {:induction false} LowBounds(L: seq<Entry>, d: int, e: int)
    requires 0 <= e <= |L|
    ensures forall x :: Low(L, d, e) <= x < e ==> L[x].depth > d
    ensures Low(L, d, e) > 0 ==> L[Low(L, d, e) - 1].depth <= d
    decreases e
  {
    if e > 0 && L[e - 1].depth > d {
      LowBounds(L, d, e - 1);
    }
  }

  /** Going forward, depths drop one at a time. */
  lemma {:induction false} Crosses(L: seq<Entry>, a: int, b: int, d: int) returns (x: int)
    requires 0 <= a < b < |L| && L[a].depth > d >= L[b].depth
    requires forall i :: a <= i < b ==> L[i].depth <= L[i + 1].depth + 1
    ensures a < x <= b && L[x].depth == d
    decreases b - a
  {
    if L[a + 1].depth <= d {
      x := a + 1;
    } else {
      x := Crosses(L, a + 1, b, d);
    }
  }

  /** Nothing from before a node that is not deeper than `j` belongs to `j`. */
  lemma NoKidsBefore(L: seq<Entry>, j: int, e: int, k: int)
    requires Legal(L) && 0 < e <= j < |L| && L[e - 1].depth <= L[j].depth && 0 <= k < e
    ensures !IsKid(L, k, j)
  {
    if L[k].depth == L[j].depth + 1 {
      var x := Crosses(L, k, e - 1, L[j].depth);
      assert k < x < j;
    }
  }

  lemma KidBuilt(L: seq<Entry>, j: int, e: int, m: int)
    requires 0 <= e <= j < |L| && 0 <= m < |Kids(L, j, 0, e)|
    ensures |Kids(L, j, 0, e)| <= |Build(L, j).kids| && 0 <= Kids(L, j, 0, e)[m] < j
    ensures Build(L, j).kids[m] == Build(L, Kids(L, j, 0, e)[m])
  {
    KidsSplit(L, j, 0, e, j);
    assert Kids(L, j, 0, e)[m] in Kids(L, j, 0, e);
  }

  lemma FewerKids(L: seq<Entry>, j: int, e: int)
    requires 0 <= e <= j < |L|
    ensures |Kids(L, j, 0, e)| <= |Build(L, j).kids| && |Kids(L, j, 0, j)| == |Build(L, j).kids|
  {
    KidsSplit(L, j, 0, e, j);
  }

  /** The children of `j` before `e`, where `e` starts a child's stretch or is `j`, spell out the list before `e`. */
  lemma {:induction false} KidsSpell(L: seq<Entry>, j: int, e: int)
    requires Legal(L) && 0 <= e <= j < |L| && (forall x :: e <= x < j ==> L[x].depth > L[j].depth)
    requires e > 0 ==> L[e - 1].depth <= L[j].depth + 1
    ensures |Kids(L, j, 0, e)| <= |Build(L, j).kids|
    ensures PostKids(Build(L, j), |Kids(L, j, 0, e)|, L[j].depth + 1) == L[Low(L, L[j].depth, e)..e]
    decreases j, e
  {
    hide Legal, Build, Post, PostKids, IsKid, Kids, Low;
    var d := L[j].depth;
    FewerKids(L, j, e);
    if e == 0 || L[e - 1].depth <= d {
      SpellNothing(L, j, e);
    } else {
      var k := e - 1;
      var lo := Low(L, L[k].depth, k);
      LowBounds(L, L[k].depth, k);
      assert forall x :: k < x < j ==> L[x].depth > L[j].depth;
      LastKid(L, j, k, lo);
      assert forall x :: lo <= x < j ==> L[x].depth > L[j].depth;
      KidsSpell(L, j, lo);
      TreeSpells(L, k);
      KidBuilt(L, j, e, |Kids(L, j, 0, lo)|);
      LowStep(L, d, lo, e);
      OneMore(L, Build(L, j), |Kids(L, j, 0, lo)|, d, Low(L, d, lo), lo, e);
    }
  }

  lemma SpellNothing(L: seq<Entry>, j: int, e: int)
    requires Legal(L) && 0 <= e <= j < |L| && (e == 0 || L[e - 1].depth <= L[j].depth)
    ensures Kids(L, j, 0, e) == [] && Low(L, L[j].depth, e) == e && PostKids(Build(L, j), 0, L[j].depth + 1) == []
  {
    forall x | 0 <= x < e ensures !IsKid(L, x, j) { NoKidsBefore(L, j, e, x); }
    NoKids(L, j, 0, e);
  }

  lemma OneMore(L: seq<Entry>, t: Tree, n: int, d: int, low: int, lo: int, e: int)
    requires 0 <= n < |t.kids| && 0 <= low <= lo <= e <= |L|
    requires PostKids(t, n, d + 1) == L[low..lo] && Post(t.kids[n], d + 1) == L[lo..e]
    ensures PostKids(t, n + 1, d + 1) == L[low..e]
  {
    hide Post;
    assert L[low..lo] + L[lo..e] == L[low..e];
  }

  /** The node before `e` is the last child, and its stretch holds no other. */
  lemma LastKid(L: seq<Entry>, j: int, k: int, lo: int)
    requires 0 <= k < j < |L| && L[k].depth == L[j].depth + 1
    requires (forall x :: k < x < j ==> L[x].depth > L[j].depth) && lo == Low(L, L[k].depth, k)
    ensures Kids(L, j, 0, k + 1) == Kids(L, j, 0, lo) + [k]
  {
    LowBounds(L, L[k].depth, k);
    KidsSplit(L, j, 0, lo, k + 1);
    KidsSplit(L, j, lo, k, k + 1);
    NoKids(L, j, lo, k);
    assert IsKid(L, k, j);
    assert Kids(L, j, k, k + 1) == [k] + Kids(L, j, k + 1, k + 1);
  }

  lemma {:induction false} LowStep(L: seq<Entry>, d: int, lo: int, e: int)
    requires 0 <= lo <= e <= |L| && forall x :: lo <= x < e ==> L[x].depth > d
    ensures Low(L, d, e) == Low(L, d, lo)
    decreases e - lo
  {
    if lo < e {
      LowStep(L, d, lo, e - 1);
    }
  }

  /** A legal list reads back: what is built at `j` spells the stretch that ends there. */
  lemma {:induction false} TreeSpells(L: seq<Entry>, j: int)
    requires Legal(L) && 0 <= j < |L|
    ensures Post(Build(L, j), L[j].depth) == L[Low(L, L[j].depth, j)..j + 1]
    decreases j, |L| + 1
  {
    var lo := Low(L, L[j].depth, j);
    assert j > 0 ==> L[j - 1].depth <= L[j].depth + 1;
    assert EntryOf(Build(L, j), L[j].depth) == L[j];
    FewerKids(L, j, j);
    hide Legal, Build, PostKids, Kids, Low;
    KidsSpell(L, j, j);
    assert L[lo..j + 1] == L[lo..j] + [L[j]];
  }

  /** Re-encoding reproduces a legal list, from the root's depth on. */
  lemma LegalRoundTrip(L: seq<Entry>)
    requires Legal(L)
    ensures Post(Build(L, |L| - 1), L[|L| - 1].depth) == L
  {
    var n := |L| - 1;
    assert forall x :: 0 <= x < n ==> L[x].depth > L[n].depth;
    hide Legal, Build, Post;
    TreeSpells(L, n);
    LowStep(L, L[n].depth, 0, n);
    assert L[0..n + 1] == L;
  }

  // ---- An encoding has one reading ----------------------------------------------------------------

  /** `t` without what the lengths say. */
  function Bare(t: Tree): (r: Tree) {
    Tree(t.tag, t.text, t.removed, t.own, t.own, t.own, seq(|t.kids|, i requires 0 <= i < |t.kids| => Bare(t.kids[i])))
  }

  /** The last entry of a tree is its root, and everything before is deeper. */
  lemma {:induction false} PostDepths(t: Tree, depth: int)
    ensures |Post(t, depth)| > 0 && Post(t, depth)[|Post(t, depth)| - 1] == EntryOf(t, depth)
    ensures forall i :: 0 <= i < |Post(t, depth)| - 1 ==> Post(t, depth)[i].depth > depth
    decreases t, 1
  {
    KidsDepths(t, |t.kids|, depth + 1);
  }

  lemma {:induction false} KidsDepths(t: Tree, n: int, depth: int)
    requires 0 <= n <= |t.kids|
    ensures forall i :: 0 <= i < |PostKids(t, n, depth)| ==> PostKids(t, n, depth)[i].depth >= depth
    ensures n > 0 ==> |PostKids(t, n, depth)| > 0 && PostKids(t, n, depth)[|PostKids(t, n, depth)| - 1].depth == depth
    ensures n == 0 ==> PostKids(t, n, depth) == []
    decreases t, 0, n
  {
    if n > 0 {
      KidsDepths(t, n - 1, depth);
      PostDepths(t.kids[n - 1], depth);
    }
  }

  lemma {:induction false} OneReading(t: Tree, u: Tree, depth: int)
    requires Post(t, depth) == Post(u, depth)
    ensures Bare(t) == Bare(u)
    decreases t, 1
  {
    var p, q := PostKids(t, |t.kids|, depth + 1), PostKids(u, |u.kids|, depth + 1);
    assert (p + [EntryOf(t, depth)])[..|p|] == p && (q + [EntryOf(u, depth)])[..|q|] == q;
    assert (p + [EntryOf(t, depth)])[|p|] == EntryOf(t, depth) && (q + [EntryOf(u, depth)])[|q|] == EntryOf(u, depth);
    OneReadingOfKids(t, u, |t.kids|, |u.kids|, depth + 1);
  }

  lemma {:induction false} OneReadingOfKids(t: Tree, u: Tree, n: int, k: int, depth: int)
    requires 0 <= n <= |t.kids| && 0 <= k <= |u.kids| && PostKids(t, n, depth) == PostKids(u, k, depth)
    ensures n == k && forall i :: 0 <= i < n ==> Bare(t.kids[i]) == Bare(u.kids[i])
    decreases t, 0, n
  {
    KidsDepths(t, n, depth);
    KidsDepths(u, k, depth);
    if n > 0 && k > 0 {
      SameLastKid(t, u, n, k, depth);
      OneReading(t.kids[n - 1], u.kids[k - 1], depth);
      OneReadingOfKids(t, u, n - 1, k - 1, depth);
    }
  }

  /** Where two rows of trees spell the same, their last trees do, and what is before them does. */
  lemma SameLastKid(t: Tree, u: Tree, n: int, k: int, depth: int)
    requires 0 < n <= |t.kids| && 0 < k <= |u.kids| && PostKids(t, n, depth) == PostKids(u, k, depth)
    ensures Post(t.kids[n - 1], depth) == Post(u.kids[k - 1], depth)
    ensures PostKids(t, n - 1, depth) == PostKids(u, k - 1, depth)
  {
    PostDepths(t.kids[n - 1], depth);
    PostDepths(u.kids[k - 1], depth);
    KidsDepths(t, n - 1, depth);
    KidsDepths(u, k - 1, depth);
    var a, x := PostKids(t, n - 1, depth), Post(t.kids[n - 1], depth);
    var b, y := PostKids(u, k - 1, depth), Post(u.kids[k - 1], depth);
    assert a + x == b + y;
    hide Post, PostKids;
    SameSplit(a, x, b, y, depth);
  }

  lemma SameSplit(a: seq<Entry>, x: seq<Entry>, b: seq<Entry>, y: seq<Entry>, depth: int)
    requires a + x == b + y && |x| > 0 && |y| > 0
    requires (forall i :: 0 <= i < |x| - 1 ==> x[i].depth > depth)
             && (forall i :: 0 <= i < |y| - 1 ==> y[i].depth > depth)
    requires (a == [] || a[|a| - 1].depth == depth) && (b == [] || b[|b| - 1].depth == depth)
    ensures a == b && x == y
  {
    var s := a + x;
    assert forall i :: |b| <= i < |s| - 1 ==> (b + y)[i].depth > depth;
    assert forall i :: |a| <= i < |s| - 1 ==> s[i].depth > depth;
    assert a != [] ==> s[|a| - 1].depth == depth;
    assert b != [] ==> (b + y)[|b| - 1].depth == depth;
    assert |a| == |b|;
    assert s[..|a|] == a && s[..|b|] == b && s[|a|..] == x && s[|b|..] == y;
  }

  // ---- An encoding is legal -------------------------------------------------------------------------

  /** Depths drop by at most one from an entry to the next, and a text entry has nothing deeper before it. */
  ghost predicate Steps(L: seq<Entry>) {
    forall i :: 0 < i < |L| ==> L[i - 1].depth <= L[i].depth + 1 && (L[i].text ==> L[i - 1].depth <= L[i].depth)
  }

  /** Text has no children. */
  predicate TextIsLeaf(t: Tree) {
    (t.text ==> t.kids == []) && forall i :: 0 <= i < |t.kids| ==> TextIsLeaf(t.kids[i])
  }

  lemma {:induction false} PostSteps(t: Tree, depth: int)
    requires TextIsLeaf(t)
    ensures Steps(Post(t, depth))
    decreases t, 1
  {
    var p := PostKids(t, |t.kids|, depth + 1);
    KidsSteps(t, |t.kids|, depth + 1);
    KidsDepths(t, |t.kids|, depth + 1);
    StepsJoin(p, [EntryOf(t, depth)]);
  }

  lemma {:induction false} KidsSteps(t: Tree, n: int, depth: int)
    requires 0 <= n <= |t.kids| && TextIsLeaf(t)
    ensures Steps(PostKids(t, n, depth))
    decreases t, 0, n
  {
    if n > 0 {
      KidsSteps(t, n - 1, depth);
      KidsDepths(t, n - 1, depth);
      PostSteps(t.kids[n - 1], depth);
      PostDepths(t.kids[n - 1], depth);
      StepsJoin(PostKids(t, n - 1, depth), Post(t.kids[n - 1], depth));
    }
  }

  lemma StepsJoin(a: seq<Entry>, b: seq<Entry>)
    requires Steps(a) && Steps(b)
    requires a != [] && b != [] ==>
               a[|a| - 1].depth <= b[0].depth + 1 && (b[0].text ==> a[|a| - 1].depth <= b[0].depth)
    ensures Steps(a + b)
  {
    var s := a + b;
    forall i | 0 < i < |s| ensures s[i - 1].depth <= s[i].depth + 1 && (s[i].text ==> s[i - 1].depth <= s[i].depth) {
      if i < |a| {
        assert s[i] == a[i] && s[i - 1] == a[i - 1];
      } else if i > |a| {
        assert s[i] == b[i - |a|] && s[i - 1] == b[i - 1 - |a|];
      }
    }
  }

  /** What the encoder writes is a list the decoder reads. */
  lemma PostLegal(t: Tree, depth: int)
    requires TextIsLeaf(t)
    ensures Legal(Post(t, depth)) && NoTextParents(Post(t, depth))
  {
    var L := Post(t, depth);
    PostSteps(t, depth);
    PostDepths(t, depth);
    hide Post;
    forall i | 0 <= i < |L| - 1 ensures L[|L| - 1].depth + 1 <= L[i].depth <= L[i + 1].depth + 1 {
      assert L[i + 1 - 1] == L[i];
    }
    forall i, j | IsKid(L, i, j) ensures !L[j].text {
      TextChildless(L, i, j);
    }
  }

  lemma TextChildless(L: seq<Entry>, i: int, j: int)
    requires Legal(L) && Steps(L) && IsKid(L, i, j)
    ensures !L[j].text
  {
    if L[j].text && i < j - 1 {
      NoKidsBefore(L, j, j, i);
    }
  }

  // ---- Lengths ----------------------------------------------------------------------------------------

  /** `t` with the lengths of one dimension counted up from below. */
  function Measured(t: Tree, all: bool): (r: Tree)
    decreases t, 1
  {
    Remade(t, MeasuredKids(t, all), all)
  }

  function MeasuredKids(t: Tree, all: bool): (kids: seq<Tree>)
    decreases t, 0
  {
    seq(|t.kids|, i requires 0 <= i < |t.kids| => Measured(t.kids[i], all))
  }

  function Remade(t: Tree, kids: seq<Tree>, all: bool): (r: Tree) {
    var length := Sum(Shown(kids, all), all);
    if all then t.(kids := kids, total := t.total + length) else t.(kids := kids, visible := t.visible + length)
  }

  /** Adds up the children shown, after bringing each up to date, and reports the padded length. */
  method UpdateDescendantsLength(t: Tree, all: bool) returns (r: Tree, padded: int)
    ensures r == Measured(t, all) && padded == Padded(r, all)
    decreases t
  {
    hide Shown, Sum, Measured;
    var length := 0;
    var kids: seq<Tree> := [];
    assert Sum(Shown(kids, all), all) == 0 by { NothingShown(all); }
    for i := 0 to |t.kids|
      invariant |kids| == i && forall k :: 0 <= k < i ==> kids[k] == Measured(t.kids[k], all)
      invariant length == Sum(Shown(kids, all), all)
    {
      var child, childLength := UpdateDescendantsLength(t.kids[i], all);
      ShownSum(kids, child, all);
      MeasuredRemoved(t.kids[i], all);
      kids := kids + [child];
      if all || !t.kids[i].removed {
        length := length + childLength;
      }
    }
    r := if all then t.(kids := kids, total := t.total + length) else t.(kids := kids, visible := t.visible + length);
    IsMeasured(t, kids, all);
    padded := Padded(r, all);
  }

  lemma NothingShown(all: bool)
    ensures Sum(Shown([], all), all) == 0
  {
  }

  lemma IsMeasured(t: Tree, kids: seq<Tree>, all: bool)
    requires |kids| == |t.kids| && forall k :: 0 <= k < |kids| ==> kids[k] == Measured(t.kids[k], all)
    ensures Measured(t, all) == Remade(t, kids, all)
  {
    hide Remade;
    assert MeasuredKids(t, all) == kids;
  }

  lemma MeasuredRemoved(t: Tree, all: bool)
    ensures Measured(t, all).removed == t.removed
  {
  }

  lemma ShownSum(kids: seq<Tree>, k: Tree, all: bool)
    ensures Sum(Shown(kids + [k], all), all)
            == Sum(Shown(kids, all), all) + if all || !k.removed then Padded(k, all) else 0
  {
    ShownAppend(kids, k, all);
    hide Shown;
    SumSplit(Shown(kids, all), [k], all);
    assert [k][1..] == [] && Shown(kids, all) + [] == Shown(kids, all);
  }

  /** Nothing counted yet. */
  predicate Unmeasured(t: Tree, all: bool) {
    Length(t, all) == t.own && forall i :: 0 <= i < |t.kids| ==> Unmeasured(t.kids[i], all)
  }

  /** One length equation, at every node. */
  predicate SizedIn(t: Tree, all: bool) {
    && Length(t, all) == t.own + Sum(Shown(t.kids, all), all)
    && forall i :: 0 <= i < |t.kids| ==> SizedIn(t.kids[i], all)
  }

  /** Counting settles its own dimension and leaves the other alone. */
  lemma {:induction false} MeasureSettles(t: Tree, all: bool)
    ensures Unmeasured(t, all) ==> SizedIn(Measured(t, all), all)
    ensures Unmeasured(t, !all) ==> Unmeasured(Measured(t, all), !all)
    ensures SizedIn(t, !all) ==> SizedIn(Measured(t, all), !all)
  {
    var r := Measured(t, all);
    assert r.kids == MeasuredKids(t, all);
    forall i | 0 <= i < |t.kids|
      ensures r.kids[i] == Measured(t.kids[i], all)
      ensures Unmeasured(t, all) ==> SizedIn(r.kids[i], all)
      ensures Unmeasured(t, !all) ==> Unmeasured(r.kids[i], !all)
      ensures SizedIn(t, !all) ==> SizedIn(r.kids[i], !all)
    {
      MeasureSettles(t.kids[i], all);
    }
    if SizedIn(t, !all) {
      OtherSame(t.kids, r.kids, all);
    }
  }

  /** The sum in one dimension does not depend on the other. */
  lemma {:induction false} OtherSame(a: seq<Tree>, b: seq<Tree>, all: bool)
    requires |a| == |b| && forall i :: 0 <= i < |a| ==> b[i] == Measured(a[i], all)
    ensures Sum(Shown(b, !all), !all) == Sum(Shown(a, !all), !all)
  {
    if a != [] {
      OtherSame(a[1..], b[1..], all);
      assert Padded(b[0], !all) == Padded(a[0], !all) && b[0].removed == a[0].removed;
      hide Measured, Padded, Shown, Sum;
      ShownHead(a, !all);
      ShownHead(b, !all);
    } else {
      assert a == b;
    }
  }

  /** Fit to hold in a tree: text has no children, an element no length of its own. */
  predicate Fit(t: Tree) {
    0 <= t.own && (if t.text then t.kids == [] else t.own == 0) && forall i :: 0 <= i < |t.kids| ==> Fit(t.kids[i])
  }

  lemma {:induction false} SizedBoth(t: Tree)
    ensures Sized(t) <==> Fit(t) && SizedIn(t, false) && SizedIn(t, true)
  {
    forall i | 0 <= i < |t.kids|
      ensures Sized(t.kids[i]) <==> Fit(t.kids[i]) && SizedIn(t.kids[i], false) && SizedIn(t.kids[i], true)
    {
      SizedBoth(t.kids[i]);
    }
  }

  lemma {:induction false} MeasuredFit(t: Tree, all: bool)
    ensures Fit(Measured(t, all)) == Fit(t) && Bare(Measured(t, all)) == Bare(t)
  {
    var r := Measured(t, all);
    assert r.kids == MeasuredKids(t, all);
    forall i | 0 <= i < |t.kids|
      ensures r.kids[i] == Measured(t.kids[i], all) && Fit(r.kids[i]) == Fit(t.kids[i])
              && Bare(r.kids[i]) == Bare(t.kids[i])
    {
      MeasuredFit(t.kids[i], all);
    }
    assert Bare(r).kids == Bare(t).kids;
  }

  function Counted(t: Tree): (r: Tree) {
    Measured(Measured(t, false), true)
  }

  /** Two counts over a tree of fresh nodes establish both length equations everywhere. */
  lemma CountedSized(t: Tree)
    requires Fit(t) && Unmeasured(t, false) && Unmeasured(t, true)
    ensures Sized(Counted(t)) && Bare(Counted(t)) == Bare(t)
  {
    hide Measured, SizedIn, Unmeasured, Fit, Sized, Bare;
    var m := Measured(t, false);
    MeasureSettles(t, false);
    MeasureSettles(m, true);
    MeasuredFit(t, false);
    MeasuredFit(m, true);
    SizedBoth(Measured(m, true));
  }

  /** The structure fixes the lengths. */
  lemma {:induction false} SizedUnique(t: Tree, u: Tree)
    requires Sized(t) && Sized(u) && Bare(t) == Bare(u)
    ensures t == u
  {
    assert |t.kids| == |Bare(t).kids| == |u.kids|;
    forall i | 0 <= i < |t.kids| ensures t.kids[i] == u.kids[i] {
      assert Bare(t).kids[i] == Bare(t.kids[i]) && Bare(u).kids[i] == Bare(u.kids[i]);
      SizedUnique(t.kids[i], u.kids[i]);
    }
    assert t.kids == u.kids;
  }

  lemma {:induction false} BareTraits(t: Tree)
    ensures Unmeasured(Bare(t), false) && Unmeasured(Bare(t), true) && Fit(Bare(t)) == Fit(t)
            && Bare(Bare(t)) == Bare(t)
  {
    forall i | 0 <= i < |t.kids|
      ensures Bare(t).kids[i] == Bare(t.kids[i])
      ensures Unmeasured(Bare(t.kids[i]), false) && Unmeasured(Bare(t.kids[i]), true)
      ensures Fit(Bare(t.kids[i])) == Fit(t.kids[i]) && Bare(Bare(t.kids[i])) == Bare(t.kids[i])
    {
      BareTraits(t.kids[i]);
    }
    assert Bare(Bare(t)).kids == Bare(t).kids;
  }

  lemma {:induction false} BuildIsBare(L: seq<Entry>, j: int)
    requires 0 <= j < |L|
    ensures Bare(Build(L, j)) == Build(L, j)
    decreases j
  {
    var t, ks := Build(L, j), Kids(L, j, 0, j);
    forall i | 0 <= i < |ks| ensures Bare(t.kids[i]) == t.kids[i] {
      assert ks[i] in ks;
      BuildIsBare(L, ks[i]);
    }
    assert Bare(t).kids == t.kids;
  }

  // ---- Decoding ---------------------------------------------------------------------------------------

  ghost predicate HasParent(L: seq<Entry>, i: int) {
    exists j :: IsKid(L, i, j) && !L[j].text
  }

  /** Every entry but the root finds a parent, and one that may have children. */
  ghost predicate Decodable(L: seq<Entry>) {
    forall i :: 0 <= i < |L| - 1 ==> HasParent(L, i)
  }

  /** `j` is the first place after `i` at depth `d`. */
  ghost predicate Nearest(L: seq<Entry>, i: int, d: int, j: int) {
    -1 <= i < j < |L| && L[j].depth == d && forall x :: i < x < j ==> L[x].depth != d
  }

  /** The table holds, for each depth met after place `i`, the nearest node there. */
  ghost predicate TableOk(L: seq<Entry>, i: int, table: map<int, int>) {
    && -1 <= i && (forall d :: d in table ==> Nearest(L, i, d, table[d]))
    && (forall j :: i < j < |L| ==> L[j].depth in table)
  }

  ghost predicate KidsOk(L: seq<Entry>, i: int, kids: seq<seq<int>>) {
    && |kids| == |L|
    && forall j :: 0 <= j < |L| ==> kids[j] == Kids(L, j, i, j)
  }

  lemma KidsStep(L: seq<Entry>, i: int, p: int, kids: seq<seq<int>>)
    requires 0 <= i < |L| && KidsOk(L, i + 1, kids) && IsKid(L, i, p)
    ensures KidsOk(L, i, kids[p := [i] + kids[p]])
  {
    var kids' := kids[p := [i] + kids[p]];
    forall j | 0 <= j < |L| ensures kids'[j] == Kids(L, j, i, j) {
      if i < j {
        OneParent(L, i, p, j);
        assert Kids(L, j, i, j) == (if IsKid(L, i, j) then [i] else []) + Kids(L, j, i + 1, j);
      }
    }
  }

  lemma OneParent(L: seq<Entry>, i: int, p: int, j: int)
    requires IsKid(L, i, p)
    ensures IsKid(L, i, j) <==> j == p
  {
  }

  lemma TableStep(L: seq<Entry>, i: int, table: map<int, int>)
    requires 0 <= i < |L| && TableOk(L, i, table)
    ensures TableOk(L, i - 1, table[L[i].depth := i])
    ensures forall p :: IsKid(L, i, p) <==> L[i].depth - 1 in table && p == table[L[i].depth - 1]
  {
    var d := L[i].depth - 1;
    if d in table {
      assert Nearest(L, i, d, table[d]);
      assert IsKid(L, i, table[d]);
      forall p ensures IsKid(L, i, p) <==> p == table[d] { OneParent(L, i, table[d], p); }
    }
  }

  /** The backward pass: finds each node's parent in the table and puts the node first among its children. */
  method Link(L: seq<Entry>) returns (r: Result<seq<seq<int>>>)
    requires |L| > 0
    ensures r.Ok? <==> Decodable(L)
    ensures r.Ok? ==> KidsOk(L, 0, r.value)
  {
    var n := |L| - 1;
    var kids: seq<seq<int>> := seq(|L|, i => []);
    var table: map<int, int> := map[L[n].depth := n];
    var i := n - 1;
    while i >= 0
      invariant -1 <= i < n && TableOk(L, i, table) && KidsOk(L, i + 1, kids)
      invariant forall k :: i < k < n ==> HasParent(L, k)
    {
      TableStep(L, i, table);
      hide TableOk, KidsOk, Decodable;
      if L[i].depth - 1 !in table {
        assert !HasParent(L, i);
        NotDecodable(L, i);
        return Err;
      }
      var parent := table[L[i].depth - 1];
      assert IsKid(L, i, parent);
      if L[parent].text {
        assert !HasParent(L, i);
        NotDecodable(L, i);
        return Err;
      }
      KidsStep(L, i, parent, kids);
      kids := kids[parent := [i] + kids[parent]];
      table := table[L[i].depth := i];
      i := i - 1;
    }
    return Ok(kids);
  }

  lemma NotDecodable(L: seq<Entry>, i: int)
    requires 0 <= i < |L| - 1 && !HasParent(L, i)
    ensures !Decodable(L)
  {
  }

  /** The node at place `j` with everything linked below it. */
  function Linked(L: seq<Entry>, kids: seq<seq<int>>, j: int): (t: Tree)
    requires KidsOk(L, 0, kids) && 0 <= j < |L|
    ensures t == Build(L, j)
    decreases j
  {
    var e, ks := L[j], kids[j];
    Tree(e.tag, e.text, e.removed, e.own, e.own, e.own,
        seq(|ks|, i requires 0 <= i < |ks| => assert ks[i] in ks; Linked(L, kids, ks[i])))
  }

  /** A node as it arrives: absent, with fields that do not decode, or whole. */
  datatype Wire = Absent | Faulty | Whole(entry: Entry)

  predicate AllWhole(wires: seq<Wire>) {
    forall i :: 0 <= i < |wires| ==> wires[i].Whole?
  }

  ghost function Entries(wires: seq<Wire>): (L: seq<Entry>)
    requires AllWhole(wires)
  {
    seq(|wires|, i requires 0 <= i < |wires| => wires[i].entry)
  }

  /** Decodes the nodes one by one; the first that is absent or faulty fails the list. */
  method FromEach(wires: seq<Wire>) returns (r: Result<seq<Entry>>)
    ensures r.Ok? <==> AllWhole(wires)
    ensures r.Ok? ==> r.value == Entries(wires)
  {
    var L := [];
    for i := 0 to |wires|
      invariant |L| == i && forall j :: 0 <= j < i ==> wires[j].Whole? && L[j] == wires[j].entry
    {
      if !wires[i].Whole? {
        return Err;
      }
      L := L + [wires[i].entry];
    }
    return Ok(L);
  }

  /** Decodes a list: no list, no tree; otherwise the linked tree, with both lengths counted. */
  method FromTreeNodes(wires: seq<Wire>) returns (r: Result<Option<Tree>>)
    ensures wires == [] ==> r == Ok(None)
    ensures wires != [] ==> (r.Ok? <==> AllWhole(wires) && Decodable(Entries(wires)))
    ensures wires != [] && r.Ok? ==> r.value == Some(Counted(Build(Entries(wires), |wires| - 1)))
  {
    if |wires| == 0 {
      return Ok(None);
    }
    var nodes := FromEach(wires);
    if nodes.Err? {
      return Err;
    }
    var L := nodes.value;
    var kids := Link(L);
    if kids.Err? {
      return Err;
    }
    hide Build, KidsOk, Decodable;
    var root := Linked(L, kids.value, |L| - 1);
    var padded;
    root, padded := UpdateDescendantsLength(root, false);
    root, padded := UpdateDescendantsLength(root, true);
    return Ok(Some(root));
  }

  /** A legal list without children under text is decodable. */
  lemma LegalDecodable(L: seq<Entry>)
    requires Legal(L) && NoTextParents(L)
    ensures Decodable(L)
  {
    forall i | 0 <= i < |L| - 1 ensures HasParent(L, i) {
      var d := L[i].depth - 1;
      var x := Crosses(L, i, |L| - 1, d);
      var j := NearestAfter(L, i, d, x);
      assert IsKid(L, i, j);
    }
  }

  lemma {:induction false} NearestAfter(L: seq<Entry>, i: int, d: int, x: int) returns (j: int)
    requires 0 <= i < x < |L| && L[x].depth == d
    ensures Nearest(L, i, d, j)
  {
    j := i + 1;
    while L[j].depth != d
      invariant i < j <= x && forall y :: i < y < j ==> L[y].depth != d
      decreases x - j
    {
      j := j + 1;
    }
  }

  lemma {:induction false} FitText(t: Tree)
    requires Fit(t)
    ensures TextIsLeaf(t)
  {
    forall i | 0 <= i < |t.kids| ensures TextIsLeaf(t.kids[i]) { FitText(t.kids[i]); }
  }

  /** Decoding what was encoded gives the tree back, whatever lengths it was encoded with, and counts both lengths. */
  lemma DecodeEncode(t: Tree)
    requires Fit(t)
    ensures var L := Post(t, 0);
            && |L| > 0 && Decodable(L)
            && Bare(Counted(Build(L, |L| - 1))) == Bare(t) && Sized(Counted(Build(L, |L| - 1)))
            && (Sized(t) ==> Counted(Build(L, |L| - 1)) == t)
  {
    var L := Post(t, 0);
    hide Fit, Sized, Legal, Bare, Build, Unmeasured, Decodable, NoTextParents, Counted;
    FitText(t);
    PostLegal(t, 0);
    PostDepths(t, 0);
    hide Post;
    LegalDecodable(L);
    LegalRoundTrip(L);
    var b := Build(L, |L| - 1);
    OneReading(b, t, 0);
    BuildIsBare(L, |L| - 1);
    BareTraits(t);
    CountedSized(b);
    if Sized(t) {
      SizedUnique(Counted(b), t);
    }
  }

  lemma {:induction false} SamePost(t: Tree, u: Tree, depth: int)
    requires Bare(t) == Bare(u)
    ensures Post(t, depth) == Post(u, depth)
    decreases t, 1
  {
    assert |t.kids| == |Bare(t).kids| == |u.kids|;
    SameKids(t, u, |t.kids|, depth + 1);
  }

  lemma {:induction false} SameKids(t: Tree, u: Tree, n: int, depth: int)
    requires Bare(t) == Bare(u) && 0 <= n <= |t.kids| == |u.kids|
    ensures PostKids(t, n, depth) == PostKids(u, n, depth)
    decreases t, 0, n
  {
    if n > 0 {
      assert Bare(t).kids[n - 1] == Bare(t.kids[n - 1]) && Bare(u).kids[n - 1] == Bare(u.kids[n - 1]);
      SamePost(t.kids[n - 1], u.kids[n - 1], depth);
      SameKids(t, u, n - 1, depth);
    }
  }

  lemma {:induction false} BuildText(L: seq<Entry>, j: int)
    requires Decodable(L) && 0 <= j < |L|
    ensures TextIsLeaf(Build(L, j))
    decreases j
  {
    var t, ks := Build(L, j), Kids(L, j, 0, j);
    forall i | 0 <= i < |ks| ensures TextIsLeaf(t.kids[i]) && !L[j].text {
      assert ks[i] in ks && IsKid(L, ks[i], j);
      BuildText(L, ks[i]);
      assert HasParent(L, ks[i]);
      var p :| IsKid(L, ks[i], p) && !L[p].text;
      OneParent(L, ks[i], j, p);
    }
    assert |ks| > 0 ==> TextIsLeaf(t.kids[0]);
    assert t.text ==> t.kids == [];
  }

  /** A list the decoder takes although no tree is written so: the last table entry at a depth may be stale. */
  lemma StaleParent()
    ensures var L := [Entry(4, false, false, 0, 3), Entry(3, false, false, 0, 1), Entry(2, false, false, 0, 2),
                      Entry(1, false, false, 0, 1), Entry(0, false, false, 0, 0)];
            && Decodable(L) && !Legal(L) && Post(Counted(Build(L, 4)), 0) != L
            && forall t, depth :: TextIsLeaf(t) ==> Post(t, depth) != L
  {
    var L := [Entry(4, false, false, 0, 3), Entry(3, false, false, 0, 1), Entry(2, false, false, 0, 2),
              Entry(1, false, false, 0, 1), Entry(0, false, false, 0, 0)];
    assert IsKid(L, 0, 2) && IsKid(L, 1, 4) && IsKid(L, 2, 3) && IsKid(L, 3, 4);
    forall i | 0 <= i < 4 ensures HasParent(L, i) {
      assert IsKid(L, i, if i == 0 then 2 else if i == 2 then 3 else 4);
    }
    assert L[0].depth > L[1].depth + 1;
    hide Post, Build, Counted, TextIsLeaf;
    EncodeDecode(L);
    forall t, depth | TextIsLeaf(t) ensures Post(t, depth) != L {
      PostLegal(t, depth);
    }
  }

  /** Decoding and re-encoding reproduces a list exactly if it is legal and has no child under text. */
  lemma EncodeDecode(L: seq<Entry>)
    requires |L| > 0
    ensures Legal(L) && NoTextParents(L) <==>
              Decodable(L) && Post(Counted(Build(L, |L| - 1)), L[|L| - 1].depth) == L
  {
    var d, b := L[|L| - 1].depth, Build(L, |L| - 1);
    hide Legal, Bare, Build, Decodable, NoTextParents, Post, Measured;
    MeasuredFit(b, false);
    MeasuredFit(Measured(b, false), true);
    SamePost(b, Counted(b), d);
    if Legal(L) && NoTextParents(L) {
      LegalDecodable(L);
      LegalRoundTrip(L);
    }
    if Decodable(L) && Post(b, d) == L {
      BuildText(L, |L| - 1);
      PostLegal(b, d);
    }
  }
}
