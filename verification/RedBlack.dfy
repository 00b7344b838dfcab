/**
 Left-leaning red-black trees as values.

 The two in-place trees of the system (the order-statistic list and the ordered map)
 rebalance with the same rotations. This module states that rebalancing on an immutable
 shape, once, and proves what it keeps; `TreeList` and `LlrbMap` then show that their
 pointer code computes these functions.
 */
module RedBlack {

  datatype Tree<E> = Leaf | Branch(left: Tree<E>, elem: E, red: bool, right: Tree<E>)

  function InOrder<E>(t: Tree<E>): (s: seq<E>) {
    match t
    case Leaf => []
    case Branch(l, x, _, r) => InOrder(l) + [x] + InOrder(r)
  }

  function Size<E>(t: Tree<E>): (n: nat)
  {
    match t
    case Leaf => 0
    case Branch(l, _, _, r) => Size(l) + 1 + Size(r)
  }

  lemma {:induction false} SizeIsLength<E>(t: Tree<E>)
    ensures Size(t) == |InOrder(t)|
  {
    if t.Branch? {
      SizeIsLength(t.left);
      SizeIsLength(t.right);
    }
  }

  /** The leftmost element. */
  function First<E>(t: Tree<E>): (x: E)
    requires t.Branch?
  {
    if t.left.Leaf? then t.elem else First(t.left)
  }

  lemma {:induction false} FirstIsFirst<E>(t: Tree<E>)
    requires t.Branch?
    ensures InOrder(t) != [] && InOrder(t)[0] == First(t)
  {
    if t.left.Branch? {
      FirstIsFirst(t.left);
    }
  }

  predicate IsRed<E>(t: Tree<E>) {
    t.Branch? && t.red
  }

  /** The number of black nodes on the leftmost path. */
  function BlackHeight<E>(t: Tree<E>): (h: nat) {
    match t
    case Leaf => 0
    case Branch(l, _, red, _) => BlackHeight(l) + if red then 0 else 1
  }

  /**
   The three invariants: no red node has a red child, every path to a leaf has the same
   number of black nodes, and only a left child is red.
   */
  predicate Llrb<E>(t: Tree<E>) {
    match t
    case Leaf => true
    case Branch(l, _, red, r) =>
      && !IsRed(r)
      && (red ==> !IsRed(l))
      && BlackHeight(l) == BlackHeight(r)
      && Llrb(l) && Llrb(r)
  }

  // ---- Rotations ----------------------------------------------------------

  function RotateLeft<E>(t: Tree<E>): (r: Tree<E>)
    requires t.Branch? && t.right.Branch?
    ensures Size(r) == Size(t)
  {
    var r := t.right;
    Branch(Branch(t.left, t.elem, true, r.left), r.elem, t.red, r.right)
  }

  function RotateRight<E>(t: Tree<E>): (r: Tree<E>)
    requires t.Branch? && t.left.Branch?
    ensures Size(r) == Size(t)
  {
    var l := t.left;
    Branch(l.left, l.elem, t.red, Branch(l.right, t.elem, true, t.right))
  }

  function Recolor<E>(t: Tree<E>, red: bool): (r: Tree<E>)
    ensures Size(r) == Size(t)
  {
    if t.Leaf? then t else t.(red := red)
  }

  function FlipColors<E>(t: Tree<E>): (r: Tree<E>)
    requires t.Branch? && t.left.Branch? && t.right.Branch?
    ensures Size(r) == Size(t)
  {
    Branch(t.left.(red := !t.left.red), t.elem, !t.red, t.right.(red := !t.right.red))
  }

  function MoveRedLeft<E>(t: Tree<E>): (r: Tree<E>)
    requires t.Branch? && t.left.Branch? && t.right.Branch?
    ensures Size(r) == Size(t) && r.Branch?
  {
    var f := FlipColors(t);
    if IsRed(f.right.left) then FlipColors(RotateLeft(f.(right := RotateRight(f.right)))) else f
  }

  function MoveRedRight<E>(t: Tree<E>): (r: Tree<E>)
    requires t.Branch? && t.left.Branch? && t.right.Branch?
    ensures Size(r) == Size(t) && r.Branch?
  {
    var f := FlipColors(t);
    if IsRed(f.left.left) then FlipColors(RotateRight(f)) else f
  }

  // ---- Rebalancing on the way up -------------------------------------------

  function LeanLeft<E>(t: Tree<E>): (r: Tree<E>)
    requires t.Branch?
    ensures Size(r) == Size(t) && r.Branch?
  {
    if IsRed(t.right) && !IsRed(t.left) then RotateLeft(t) else t
  }

  function Straighten<E>(t: Tree<E>): (r: Tree<E>)
    requires t.Branch?
    ensures Size(r) == Size(t) && r.Branch?
  {
    if IsRed(t.left) && IsRed(t.left.left) then RotateRight(t) else t
  }

  function Split<E>(t: Tree<E>): (r: Tree<E>)
    requires t.Branch?
    ensures Size(r) == Size(t) && r.Branch?
  {
    if IsRed(t.left) && IsRed(t.right) then FlipColors(t) else t
  }

  function FixUp<E>(t: Tree<E>): (r: Tree<E>)
    requires t.Branch?
    ensures Size(r) == Size(t) && r.Branch?
  {
    Split(Straighten(LeanLeft(t)))
  }

  /** The ordered map's deletion leans left even when the left child is red too. */
  function FixUpEager<E>(t: Tree<E>): (r: Tree<E>)
    requires t.Branch?
    ensures Size(r) == Size(t) && r.Branch?
  {
    Split(Straighten(if IsRed(t.right) then RotateLeft(t) else t))
  }

  /** The two orders of repair agree wherever the left subtree is itself a legal tree. */
  lemma FixUpAgrees<E>(t: Tree<E>)
    requires t.Branch? && Llrb(t.left)
    ensures FixUpEager(t) == FixUp(t)
  {
  }

  // ---- Rebalancing never changes the sequence ---------------------------------

  lemma Regroup<E>(a: seq<E>, x: E, b: seq<E>, y: E, c: seq<E>)
    ensures a + [x] + b + [y] + c == a + [x] + (b + [y] + c)
  {
  }

  lemma RotateLeftSequence<E>(t: Tree<E>)
    requires t.Branch? && t.right.Branch?
    ensures InOrder(RotateLeft(t)) == InOrder(t)
  {
    Regroup(InOrder(t.left), t.elem, InOrder(t.right.left), t.right.elem, InOrder(t.right.right));
  }

  lemma RotateRightSequence<E>(t: Tree<E>)
    requires t.Branch? && t.left.Branch?
    ensures InOrder(RotateRight(t)) == InOrder(t)
  {
    Regroup(InOrder(t.left.left), t.left.elem, InOrder(t.left.right), t.elem, InOrder(t.right));
  }

  lemma MoveRedLeftSequence<E>(t: Tree<E>)
    requires t.Branch? && t.left.Branch? && t.right.Branch?
    ensures InOrder(MoveRedLeft(t)) == InOrder(t)
  {
    var f := FlipColors(t);
    if IsRed(f.right.left) {
      RotateRightSequence(f.right);
      RotateLeftSequence(f.(right := RotateRight(f.right)));
    }
  }

  lemma MoveRedRightSequence<E>(t: Tree<E>)
    requires t.Branch? && t.left.Branch? && t.right.Branch?
    ensures InOrder(MoveRedRight(t)) == InOrder(t)
  {
    var f := FlipColors(t);
    if IsRed(f.left.left) {
      RotateRightSequence(f);
    }
  }

  lemma FixUpSequence<E>(t: Tree<E>)
    requires t.Branch?
    ensures InOrder(FixUp(t)) == InOrder(t)
  {
    if IsRed(t.right) && !IsRed(t.left) {
      RotateLeftSequence(t);
    }
    var u := LeanLeft(t);
    if IsRed(u.left) && IsRed(u.left.left) {
      RotateRightSequence(u);
    }
  }

  // ---- Insertion at a position ----------------------------------------------

  function Insert<E>(t: Tree<E>, i: nat, x: E): (r: Tree<E>)
    requires i <= Size(t)
    ensures r.Branch?
  {
    match t
    case Leaf => Branch(Leaf, x, true, Leaf)
    case Branch(l, _, _, r) =>
      if i <= Size(l) then FixUp(t.(left := Insert(l, i, x)))
      else FixUp(t.(right := Insert(r, i - Size(l) - 1, x)))
  }

  /** `s` with `x` put in before position `i`. */
  function Splice<E>(s: seq<E>, i: nat, x: E): (r: seq<E>)
    requires i <= |s|
  {
    s[..i] + [x] + s[i..]
  }

  /** `s` without position `i`. */
  function Cut<E>(s: seq<E>, i: nat): (r: seq<E>)
    requires i < |s|
  {
    s[..i] + s[i + 1..]
  }

  lemma SpliceParts<E>(a: seq<E>, e: E, b: seq<E>, i: nat, x: E)
    requires i <= |a| + 1 + |b|
    ensures i <= |a| ==> Splice(a + [e] + b, i, x) == Splice(a, i, x) + [e] + b
    ensures i > |a| ==> Splice(a + [e] + b, i, x) == a + [e] + Splice(b, i - |a| - 1, x)
  {
    var s := a + [e] + b;
    if i <= |a| {
      assert s[..i] == a[..i] && s[i..] == a[i..] + [e] + b;
    } else {
      assert s[..i] == a + [e] + b[..i - |a| - 1] && s[i..] == b[i - |a| - 1..];
    }
  }

  lemma CutParts<E>(a: seq<E>, e: E, b: seq<E>, i: nat)
    requires i < |a| + 1 + |b|
    ensures i < |a| ==> Cut(a + [e] + b, i) == Cut(a, i) + [e] + b
    ensures i == |a| ==> Cut(a + [e] + b, i) == a + b
    ensures i > |a| ==> Cut(a + [e] + b, i) == a + [e] + Cut(b, i - |a| - 1)
  {
    var s := a + [e] + b;
    if i < |a| {
      assert s[..i] == a[..i] && s[i + 1..] == a[i + 1..] + [e] + b;
    } else if i > |a| {
      assert s[..i] == a + [e] + b[..i - |a| - 1] && s[i + 1..] == b[i - |a|..];
    }
  }

  lemma {:induction false} InsertSequence<E>(t: Tree<E>, i: nat, x: E)
    requires i <= |InOrder(t)|
    ensures i <= Size(t)
    ensures InOrder(Insert(t, i, x)) == Splice(InOrder(t), i, x)
  {
    hide FixUp;
    SizeIsLength(t);
    match t
    case Leaf =>
    case Branch(l, e, _, r) =>
      SizeIsLength(l);
      SpliceParts(InOrder(l), e, InOrder(r), i, x);
      if i <= Size(l) {
        InsertSequence(l, i, x);
        FixUpSequence(t.(left := Insert(l, i, x)));
      } else {
        InsertSequence(r, i - Size(l) - 1, x);
        FixUpSequence(t.(right := Insert(r, i - Size(l) - 1, x)));
      }
  }

  /** A tree whose only fault is a red root with a red left child. */
  predicate RedRedRoot<E>(t: Tree<E>) {
    && IsRed(t) && IsRed(t.left) && !IsRed(t.right)
    && BlackHeight(t.left) == BlackHeight(t.right)
    && Llrb(t.left) && Llrb(t.right)
  }

  /** The result of an insertion step: as tall as before, and legal unless it was red. */
  predicate Grown<E>(t: Tree<E>, r: Tree<E>) {
    BlackHeight(r) == BlackHeight(t) && (Llrb(r) || (IsRed(t) && RedRedRoot(r)))
  }

  lemma GrowLeft<E>(t: Tree<E>, l: Tree<E>)
    requires t.Branch? && Llrb(t) && l.Branch? && Grown(t.left, l)
    ensures Grown(t, FixUp(t.(left := l)))
  {
  }

  lemma GrowRight<E>(t: Tree<E>, r: Tree<E>)
    requires t.Branch? && Llrb(t) && r.Branch? && Grown(t.right, r)
    ensures Grown(t, FixUp(t.(right := r)))
  {
  }

  lemma {:induction false} InsertBalance<E>(t: Tree<E>, i: nat, x: E)
    requires Llrb(t) && i <= Size(t)
    ensures Grown(t, Insert(t, i, x))
  {
    hide FixUp;
    match t
    case Leaf =>
    case Branch(l, e, _, r) =>
      if i <= Size(l) {
        InsertBalance(l, i, x);
        GrowLeft(t, Insert(l, i, x));
      } else {
        InsertBalance(r, i - Size(l) - 1, x);
        GrowRight(t, Insert(r, i - Size(l) - 1, x));
      }
  }

  /** Insertion followed by blackening the root is a legal tree again. */
  lemma InsertKeepsInvariants<E>(t: Tree<E>, i: nat, x: E)
    requires Llrb(t) && i <= Size(t)
    ensures Llrb(Recolor(Insert(t, i, x), false))
  {
    InsertBalance(t, i, x);
  }

  // ---- Deletion at a position -------------------------------------------------

  /** What every downward step of a deletion establishes: there is a red link to take along. */
  predicate Ready<E>(t: Tree<E>) {
    t.Branch? && Llrb(t) && (t.red || IsRed(t.left))
  }

  /** A black node whose one fault is that the red link has been moved to its right. */
  predicate RedRight<E>(t: Tree<E>) {
    && t.Branch? && !t.red && !IsRed(t.left) && IsRed(t.right)
    && BlackHeight(t.left) == BlackHeight(t.right)
    && Llrb(t.left) && Llrb(t.right)
  }

  /** A deletion of position `i` may enter `t`; it meets `RedRight` only when bound for the right. */
  predicate ReadyAt<E>(t: Tree<E>, i: nat) {
    i < Size(t) && (Ready(t) || (RedRight(t) && i >= Size(t.left)))
  }

  /** `u` is `t` rearranged so that a deletion may go on below it. */
  predicate Opened<E>(t: Tree<E>, u: Tree<E>) {
    && t.Branch? && u.Branch?
    && Size(u) == Size(t) && BlackHeight(u) == BlackHeight(t)
    && BlackHeight(u.left) == BlackHeight(u.right)
    && (u.red ==> t.red && !IsRed(u.left) && !IsRed(u.right))
    && (IsRed(u.left) && IsRed(u.right) ==> t.red)
  }

  function PrepareLeft<E>(t: Tree<E>): (u: Tree<E>)
    requires Ready(t) && t.left.Branch?
    ensures u.Branch? && Size(u) == Size(t)
  {
    if !IsRed(t.left) && !IsRed(t.left.left) then MoveRedLeft(t) else t
  }

  lemma PrepareLeftOpens<E>(t: Tree<E>)
    requires Ready(t) && t.left.Branch?
    ensures Opened(t, PrepareLeft(t)) && Ready(PrepareLeft(t).left) && Llrb(PrepareLeft(t).right)
    ensures Size(t.left) <= Size(PrepareLeft(t).left) < Size(t)
  {
    assert Llrb(t.left) && Llrb(t.right);
    if !IsRed(t.left) && !IsRed(t.left.left) {
      if IsRed(t.right.left) {
        BorrowFromRight(t);
      } else {
        assert PrepareLeft(t) == Branch(t.left.(red := true), t.elem, false, t.right.(red := true));
      }
    }
  }

  /** The rotating case: the red link comes from the right sibling. */
  lemma BorrowFromRight<E>(t: Tree<E>)
    requires t.Branch? && t.red && Llrb(t) && t.left.Branch? && !IsRed(t.left.left)
    requires t.right.Branch? && IsRed(t.right.left)
    ensures var u := MoveRedLeft(t);
            && Opened(t, u) && Ready(u.left) && Llrb(u.right)
            && Size(t.left) <= Size(u.left) < Size(t)
  {
    var l, r := t.left, t.right;
    assert Llrb(l) && Llrb(r) && Llrb(r.left) && Llrb(r.right);
    var left := Branch(l.(red := true), t.elem, false, r.left.left);
    var right := Branch(r.left.right, r.elem, false, r.right);
    assert MoveRedLeft(t) == Branch(left, r.left.elem, true, right);
    hide MoveRedLeft;
    assert Llrb(left) && Llrb(right) && BlackHeight(left) == BlackHeight(right) == BlackHeight(l);
    assert Opened(t, Branch(left, r.left.elem, true, right));
  }

  function LeanRight<E>(t: Tree<E>): (u: Tree<E>)
    requires t.Branch?
    ensures u.Branch? && Size(u) == Size(t) && Size(u.left) <= Size(t.left)
  {
    if IsRed(t.left) then RotateRight(t) else t
  }

  lemma LeanRightOpens<E>(t: Tree<E>)
    requires Ready(t) || RedRight(t)
    ensures Opened(t, LeanRight(t)) && !IsRed(LeanRight(t).left)
    ensures Llrb(LeanRight(t).left) && Llrb(LeanRight(t).right)
    ensures IsRed(LeanRight(t).right) || (LeanRight(t) == t && t.red)
    ensures LeanRight(t).right.Leaf? ==> t.left.Leaf? && t.right.Leaf?
    ensures LeanRight(t).right.Branch? && !IsRed(LeanRight(t).right) ==> t.left.Branch?
  {
    if Ready(t) {
      assert Llrb(t.left) && Llrb(t.right);
    }
  }

  function PrepareRight<E>(t: Tree<E>): (v: Tree<E>)
    requires (Ready(t) || RedRight(t)) && LeanRight(t).right.Branch?
    ensures v.Branch? && Size(v) == Size(t) && Size(v.left) <= Size(t.left)
  {
    LeanRightOpens(t);
    var u := LeanRight(t);
    if !IsRed(u.right) && !IsRed(u.right.left) then MoveRedRight(u) else u
  }

  lemma PrepareRightOpens<E>(t: Tree<E>, i: nat)
    requires ReadyAt(t, i) && Size(t.left) <= i && LeanRight(t).right.Branch?
    ensures var v := PrepareRight(t);
            Opened(t, v) && Llrb(v.left) && OpenAt(v, i)
  {
    LeanRightOpens(t);
    if IsRed(LeanRight(t).right) {
      assert PrepareRight(t) == LeanRight(t);
    } else {
      assert Llrb(t.left) && Llrb(t.right) && Llrb(t.left.left) && Llrb(t.left.right);
      if IsRed(t.left.left) {
        assert !IsRed(t.right.left) ==> RedRight(PrepareRight(t).right);
      }
    }
  }

  function RemoveMin<E>(t: Tree<E>): (r: Tree<E>)
    requires Ready(t)
    decreases Size(t)
  {
    if t.left.Leaf? then Leaf
    else
      var u := PrepareLeft(t);
      PrepareLeftOpens(t);
      FixUp(u.(left := RemoveMin(u.left)))
  }

  function Delete<E>(t: Tree<E>, i: nat): (r: Tree<E>)
    requires ReadyAt(t, i)
    decreases Size(t), 1
  {
    if i < Size(t.left) then
      var u := PrepareLeft(t);
      PrepareLeftOpens(t);
      FixUp(u.(left := Delete(u.left, i)))
    else if LeanRight(t).right.Leaf? then Leaf
    else
      PrepareRightOpens(t, i);
      DeleteBelow(PrepareRight(t), i)
  }

  /** The position is the root of `v` or lies to its right, and the right subtree may be entered. */
  predicate OpenAt<E>(v: Tree<E>, i: nat) {
    && v.Branch? && Size(v.left) <= i
    && (i == Size(v.left) ==> Ready(v.right))
    && (i > Size(v.left) ==> ReadyAt(v.right, i - Size(v.left) - 1))
  }

  function DeleteBelow<E>(v: Tree<E>, i: nat): (r: Tree<E>)
    requires OpenAt(v, i)
    decreases Size(v), 0
  {
    if i == Size(v.left) then
      FixUp(v.(elem := First(v.right), right := RemoveMin(v.right)))
    else
      FixUp(v.(right := Delete(v.right, i - Size(v.left) - 1)))
  }

  /** The repair after a deletion below `t`: both subtrees are legal, `t` perhaps not. */
  lemma FixUpAfterDelete<E>(t: Tree<E>)
    requires t.Branch? && Llrb(t.left) && Llrb(t.right)
    requires BlackHeight(t.left) == BlackHeight(t.right)
    requires t.red ==> !IsRed(t.left) && !IsRed(t.right)
    ensures Llrb(FixUp(t)) && BlackHeight(FixUp(t)) == BlackHeight(t)
    ensures IsRed(FixUp(t)) ==> t.red || (IsRed(t.left) && IsRed(t.right))
  {
  }

  /** The result of a deletion step: legal, as tall as before, and red only if it was. */
  predicate Shrunk<E>(t: Tree<E>, r: Tree<E>) {
    Llrb(r) && BlackHeight(r) == BlackHeight(t) && (IsRed(r) ==> IsRed(t))
  }

  lemma ReplaceLeft<E>(t: Tree<E>, u: Tree<E>, l: Tree<E>)
    requires Opened(t, u) && Llrb(u.right) && Shrunk(u.left, l)
    ensures Shrunk(t, FixUp(u.(left := l)))
  {
    FixUpAfterDelete(u.(left := l));
  }

  lemma ReplaceRight<E>(t: Tree<E>, u: Tree<E>, x: E, r: Tree<E>)
    requires Opened(t, u) && Llrb(u.left) && Shrunk(u.right, r)
    ensures Shrunk(t, FixUp(u.(elem := x, right := r)))
  {
    FixUpAfterDelete(u.(elem := x, right := r));
  }

  lemma {:induction false} RemoveMinBalance<E>(t: Tree<E>)
    requires Ready(t)
    ensures Shrunk(t, RemoveMin(t))
    decreases Size(t)
  {
    if t.left.Branch? {
      var u := PrepareLeft(t);
      PrepareLeftOpens(t);
      RemoveMinBalance(u.left);
      ReplaceLeft(t, u, RemoveMin(u.left));
    }
  }

  lemma {:induction false} DeleteBalance<E>(t: Tree<E>, i: nat)
    requires ReadyAt(t, i)
    ensures Shrunk(t, Delete(t, i))
    decreases Size(t), 1
  {
    if i < Size(t.left) {
      var u := PrepareLeft(t);
      PrepareLeftOpens(t);
      DeleteBalance(u.left, i);
      ReplaceLeft(t, u, Delete(u.left, i));
    } else if LeanRight(t).right.Branch? {
      PrepareRightOpens(t, i);
      DeleteBelowBalance(t, PrepareRight(t), i);
    } else {
      LeanRightOpens(t);
    }
  }

  lemma {:induction false} DeleteBelowBalance<E>(t: Tree<E>, v: Tree<E>, i: nat)
    requires OpenAt(v, i) && Opened(t, v) && Llrb(v.left)
    ensures Shrunk(t, DeleteBelow(v, i))
    decreases Size(v), 0
  {
    hide FixUp;
    hide Shrunk;
    if i == Size(v.left) {
      RemoveMinBalance(v.right);
      ReplaceRight(t, v, First(v.right), RemoveMin(v.right));
    } else {
      DeleteBalance(v.right, i - Size(v.left) - 1);
      ReplaceRight(t, v, v.elem, Delete(v.right, i - Size(v.left) - 1));
    }
  }

  lemma PrepareLeftSequence<E>(t: Tree<E>)
    requires Ready(t) && t.left.Branch?
    ensures InOrder(PrepareLeft(t)) == InOrder(t)
  {
    if !IsRed(t.left) && !IsRed(t.left.left) {
      MoveRedLeftSequence(t);
    }
  }

  lemma PrepareRightSequence<E>(t: Tree<E>)
    requires (Ready(t) || RedRight(t)) && LeanRight(t).right.Branch?
    ensures InOrder(PrepareRight(t)) == InOrder(t)
  {
    LeanRightOpens(t);
    if IsRed(t.left) {
      RotateRightSequence(t);
    }
    var u := LeanRight(t);
    if !IsRed(u.right) && !IsRed(u.right.left) {
      MoveRedRightSequence(u);
    }
  }

  lemma {:induction false} RemoveMinSequence<E>(t: Tree<E>)
    requires Ready(t)
    ensures InOrder(t) == [First(t)] + InOrder(RemoveMin(t))
    decreases Size(t)
  {
    if t.left.Branch? {
      var u := PrepareLeft(t);
      PrepareLeftOpens(t);
      RemoveMinSequence(u.left);
      RemoveMinStep(t, u, RemoveMin(u.left));
    }
  }

  lemma RemoveMinStep<E>(t: Tree<E>, u: Tree<E>, l: Tree<E>)
    requires Ready(t) && t.left.Branch? && u == PrepareLeft(t) && u.left.Branch?
    requires InOrder(u.left) == [First(u.left)] + InOrder(l)
    ensures InOrder(t) == [First(t)] + InOrder(FixUp(u.(left := l)))
  {
    hide FixUp;
    hide PrepareLeft;
    PrepareLeftSequence(t);
    FixUpSequence(u.(left := l));
    assert InOrder(u) == [First(u.left)] + InOrder(u.(left := l));
    FirstIsFirst(t);
  }

  lemma {:induction false} DeleteSequence<E>(t: Tree<E>, i: nat)
    requires ReadyAt(t, i)
    ensures i < |InOrder(t)|
    ensures InOrder(Delete(t, i)) == Cut(InOrder(t), i)
    decreases Size(t), 1
  {
    if i < Size(t.left) {
      PrepareLeftSequence(t);
      PrepareLeftOpens(t);
      DeleteSequence(PrepareLeft(t).left, i);
      LeftStep(PrepareLeft(t), i, Delete(PrepareLeft(t).left, i));
    } else if LeanRight(t).right.Branch? {
      PrepareRightOpens(t, i);
      PrepareRightSequence(t);
      DeleteBelowSequence(PrepareRight(t), i);
    } else {
      LeanRightOpens(t);
    }
  }

  lemma {:induction false} DeleteBelowSequence<E>(v: Tree<E>, i: nat)
    requires OpenAt(v, i)
    ensures i < |InOrder(v)|
    ensures InOrder(DeleteBelow(v, i)) == Cut(InOrder(v), i)
    decreases Size(v), 0
  {
    hide FixUp;
    hide InOrder;
    hide Cut;
    if i == Size(v.left) {
      RemoveMinSequence(v.right);
      SuccessorStep(v, RemoveMin(v.right));
    } else {
      DeleteSequence(v.right, i - Size(v.left) - 1);
      RightStep(v, i - Size(v.left) - 1, Delete(v.right, i - Size(v.left) - 1));
    }
  }

  lemma LeftStep<E>(u: Tree<E>, i: nat, l: Tree<E>)
    requires u.Branch? && i < |InOrder(u.left)| && InOrder(l) == Cut(InOrder(u.left), i)
    ensures i < |InOrder(u)|
    ensures InOrder(FixUp(u.(left := l))) == Cut(InOrder(u), i)
  {
    hide FixUp;
    CutParts(InOrder(u.left), u.elem, InOrder(u.right), i);
    FixUpSequence(u.(left := l));
  }

  lemma RightStep<E>(v: Tree<E>, i: nat, r: Tree<E>)
    requires v.Branch? && i < |InOrder(v.right)| && InOrder(r) == Cut(InOrder(v.right), i)
    ensures Size(v.left) + 1 + i < |InOrder(v)|
    ensures InOrder(FixUp(v.(right := r))) == Cut(InOrder(v), Size(v.left) + 1 + i)
  {
    hide FixUp;
    SizeIsLength(v.left);
    CutParts(InOrder(v.left), v.elem, InOrder(v.right), Size(v.left) + 1 + i);
    FixUpSequence(v.(right := r));
  }

  /** Promoting the first element of the right subtree drops exactly the root's element. */
  lemma SuccessorStep<E>(v: Tree<E>, r: Tree<E>)
    requires v.Branch? && v.right.Branch? && InOrder(v.right) == [First(v.right)] + InOrder(r)
    ensures Size(v.left) < |InOrder(v)|
    ensures InOrder(FixUp(v.(elem := First(v.right), right := r))) == Cut(InOrder(v), Size(v.left))
  {
    hide FixUp;
    SizeIsLength(v.left);
    CutParts(InOrder(v.left), v.elem, InOrder(v.right), Size(v.left));
    FixUpSequence(v.(elem := First(v.right), right := r));
  }

  /** The root as a deletion enters it: red, unless its left child already is. */
  function Open<E>(t: Tree<E>): (r: Tree<E>)
    requires t.Branch?
    ensures Size(r) == Size(t) && r.Branch?
  {
    if !IsRed(t.left) && !IsRed(t.right) then Recolor(t, true) else t
  }

  /** Deletion from a legal tree followed by blackening the root is a legal tree again. */
  lemma DeleteKeepsInvariants<E>(t: Tree<E>, i: nat)
    requires t.Branch? && Llrb(t) && !t.red && i < Size(t)
    ensures ReadyAt(Open(t), i)
    ensures Llrb(Recolor(Delete(Open(t), i), false))
  {
    DeleteBalance(Open(t), i);
  }

  // ---- Height -----------------------------------------------------------------

  function Height<E>(t: Tree<E>): (h: nat) {
    match t
    case Leaf => 0
    case Branch(l, _, _, r) => 1 + if Height(l) > Height(r) then Height(l) else Height(r)
  }

  function Pow2(n: nat): (p: nat)
    ensures p >= 1
  {
    if n == 0 then 1 else 2 * Pow2(n - 1)
  }

  /** The base-two logarithm, rounded down. */
  function Log2(n: nat): (k: nat)
    requires n >= 1
    ensures Pow2(k) <= n < Pow2(k + 1)
  {
    if n == 1 then 0 else Log2(n / 2) + 1
  }

  lemma {:induction false} Log2Bound(b: nat, n: nat)
    requires Pow2(b) <= n
    ensures b <= Log2(n)
  {
    if b > 0 {
      Log2Bound(b - 1, n / 2);
    }
  }

  lemma {:induction false} BlackHeightBounds<E>(t: Tree<E>)
    requires Llrb(t)
    ensures Pow2(BlackHeight(t)) <= Size(t) + 1
    ensures Height(t) <= 2 * BlackHeight(t) + if IsRed(t) then 1 else 0
  {
    match t
    case Leaf =>
    case Branch(l, _, _, r) =>
      BlackHeightBounds(l);
      BlackHeightBounds(r);
  }

  /** A legal tree with a black root has no path longer than twice the logarithm of its size. */
  lemma HeightIsLogarithmic<E>(t: Tree<E>)
    requires Llrb(t) && !IsRed(t)
    ensures Height(t) <= 2 * Log2(Size(t) + 1)
  {
    hide *;
    BlackHeightBounds(t);
    Log2Bound(BlackHeight(t), Size(t) + 1);
  }
}
