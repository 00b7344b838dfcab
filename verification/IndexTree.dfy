/**
 Reading the index tree: positions, indexes and tokens.

 A tree is taken here as a value: a node with its stored lengths and its children, tombstones
 included. `Sized` is the length invariant that `IndexTreeEdits` shows the editing operations
 keep. Queries read the stored lengths, as the code does.
 */
module IndexTree {

  datatype Result<T> = Ok(value: T) | Err

  /** `tag` stands for the value held; `own` is the length of the value itself. */
  datatype Tree = Tree(tag: int, text: bool, removed: bool, own: int, visible: int, total: int, kids: seq<Tree>)

  const ELEMENT_PADDING := 2

  function Length(t: Tree, all: bool): (n: int) {
    if all then t.total else t.visible
  }

  function Padded(t: Tree, all: bool): (n: int) {
    Length(t, all) + if t.text then 0 else ELEMENT_PADDING
  }

  /** The children a view shows: all of them, or those that are not tombstones. */
  function Shown(kids: seq<Tree>, all: bool): (s: seq<Tree>) {
    if kids == [] then []
    else (if all || !kids[0].removed then [kids[0]] else []) + Shown(kids[1..], all)
  }

  function Sum(kids: seq<Tree>, all: bool): (n: int) {
    if kids == [] then 0 else Padded(kids[0], all) + Sum(kids[1..], all)
  }

  /** Both length equations, at every node; an element has no length of its own and text no children. */
  predicate Sized(t: Tree) {
    && 0 <= t.own && (if t.text then t.kids == [] else t.own == 0)
    && t.visible == t.own + Sum(Shown(t.kids, false), false)
    && t.total == t.own + Sum(Shown(t.kids, true), true)
    && forall i :: 0 <= i < |t.kids| ==> Sized(t.kids[i])
  }

  lemma {:induction false} ShownAreKids(kids: seq<Tree>, all: bool)
    ensures forall x :: x in Shown(kids, all) ==> x in kids && (all || !x.removed)
  {
    if kids != [] {
      ShownAreKids(kids[1..], all);
    }
  }

  lemma {:induction false} ShownAppend(kids: seq<Tree>, k: Tree, all: bool)
    ensures Shown(kids + [k], all) == Shown(kids, all) + if all || !k.removed then [k] else []
  {
    if kids == [] {
      assert (kids + [k])[1..] == [];
    } else {
      assert (kids + [k])[1..] == kids[1..] + [k] && (kids + [k])[0] == kids[0];
      ShownAppend(kids[1..], k, all);
    }
  }

  lemma ShownHead(kids: seq<Tree>, all: bool)
    requires kids != []
    ensures Sum(Shown(kids, all), all) ==
              (if all || !kids[0].removed then Padded(kids[0], all) else 0) + Sum(Shown(kids[1..], all), all)
  {
    var rest := Shown(kids[1..], all);
    assert ([kids[0]] + rest)[1..] == rest && [] + rest == rest;
  }

  predicate AllSized(kids: seq<Tree>) {
    forall i :: 0 <= i < |kids| ==> Sized(kids[i])
  }

  lemma ShownSized(t: Tree, all: bool)
    requires Sized(t)
    ensures AllSized(Shown(t.kids, all)) && Length(t, all) == t.own + Sum(Shown(t.kids, all), all)
  {
    ShownAreKids(t.kids, all);
  }

  lemma {:induction false} LengthsNatural(t: Tree, all: bool)
    requires Sized(t)
    ensures 0 <= Length(t, all)
    decreases t, 1
  {
    ShownSized(t, all);
    ShownAreKids(t.kids, all);
    SumNatural(t, Shown(t.kids, all), all);
  }

  lemma {:induction false} SumNatural(t: Tree, kids: seq<Tree>, all: bool)
    requires AllSized(kids) && forall x :: x in kids ==> x in t.kids
    ensures 0 <= Sum(kids, all)
    decreases t, 0, |kids|
  {
    if kids != [] {
      assert kids[0] in t.kids;
      LengthsNatural(kids[0], all);
      SumNatural(t, kids[1..], all);
    }
  }

  lemma {:induction false} SumSplit(a: seq<Tree>, b: seq<Tree>, all: bool)
    ensures Sum(a + b, all) == Sum(a, all) + Sum(b, all)
  {
    if a == [] {
      assert a + b == b;
    } else {
      assert (a + b)[1..] == a[1..] + b;
      SumSplit(a[1..], b, all);
    }
  }

  // ---- Tokens ------------------------------------------------------------------------------

  datatype Kind = Start | End | Text

  datatype Token = Token(tag: int, kind: Kind, ended: bool)

  /**
   A token at its place in the flattened stream; `close` is where the element's end tag starts. A
   token is `dull` if it is an empty text at the very start or end of the content of an element.
   */
  datatype Placed = Placed(tag: int, kind: Kind, lo: int, hi: int, close: int, dull: bool)

  /** The tokens of `t`, tags included, laid out from position `at`. */
  function Laid(t: Tree, all: bool, at: int): (s: seq<Placed>)
    decreases t, 1
  {
    if t.text then [Placed(t.tag, Text, at, at + Padded(t, all), at, false)]
    else
      var close := at + 1 + Length(t, all);
      [StartTag(t, all, at)] + Marked(Content(t, all, at + 1), at + 1, close) + [EndTag(t, all, at)]
  }

  function StartTag(t: Tree, all: bool, at: int): (p: Placed) {
    Placed(t.tag, Start, at, at + 1, at + 1 + Length(t, all), false)
  }

  function EndTag(t: Tree, all: bool, at: int): (p: Placed) {
    var close := at + 1 + Length(t, all);
    Placed(t.tag, End, close, close + 1, close, false)
  }

  /** The content of an element, which stretches from `lo` to `hi`, with the empty texts at its edges marked. */
  function Marked(s: seq<Placed>, lo: int, hi: int): (r: seq<Placed>) {
    seq(|s|, i requires 0 <= i < |s| => Marked1(s[i], lo, hi))
  }

  function Marked1(p: Placed, lo: int, hi: int): (r: Placed) {
    if p.lo == p.hi && (p.lo == lo || p.lo == hi) then p.(dull := true) else p
  }

  /** The tokens of the children a view shows. */
  function Content(t: Tree, all: bool, at: int): (s: seq<Placed>)
    decreases t, 0
  {
    ShownAreKids(t.kids, all);
    LaidKids(t, Shown(t.kids, all), all, at)
  }

  /** The tokens of some of the children of `t`, one after the other. */
  function LaidKids(t: Tree, kids: seq<Tree>, all: bool, at: int): (s: seq<Placed>)
    requires forall x :: x in kids ==> x in t.kids
    decreases t, 0, |kids|
  {
    if kids == [] then []
    else
      assert kids[0] in t.kids;
      Laid(kids[0], all, at) + LaidKids(t, kids[1..], all, at + Padded(kids[0], all))
  }

  /** The token's stretch has something in common with `from..to`. */
  predicate Meets(p: Placed, from: int, to: int) {
    p.lo < to && from < p.hi
  }

  /** The code takes every token that meets the range, but for the dull ones. */
  predicate Taken(p: Placed, from: int, to: int) {
    Meets(p, from, to) && !p.dull
  }

  function Emitted(p: Placed, to: int): (k: Token) {
    Token(p.tag, p.kind, p.kind == End || (p.kind == Start && p.close < to))
  }

  function Selected(s: seq<Placed>, from: int, to: int): (r: seq<Token>) {
    if s == [] then []
    else (if Taken(s[0], from, to) then [Emitted(s[0], to)] else []) + Selected(s[1..], from, to)
  }

  lemma {:induction false} SelectedSplit(a: seq<Placed>, b: seq<Placed>, from: int, to: int)
    ensures Selected(a + b, from, to) == Selected(a, from, to) + Selected(b, from, to)
  {
    hide Taken, Emitted;
    if a == [] {
      assert a + b == b;
    } else {
      var ab, head := a + b, if Taken(a[0], from, to) then [Emitted(a[0], to)] else [];
      assert ab[0] == a[0] && ab[1..] == a[1..] + b;
      SelectedSplit(a[1..], b, from, to);
      assert Selected(ab, from, to) == head + (Selected(a[1..], from, to) + Selected(b, from, to));
    }
  }

  /** The tokens follow each other without gap or overlap, from `lo` to `hi`. */
  predicate Tiles(s: seq<Placed>, lo: int, hi: int) {
    if s == [] then lo == hi else s[0].lo == lo && Tiles(s[1..], s[0].hi, hi)
  }

  lemma {:induction false} TilesJoin(a: seq<Placed>, b: seq<Placed>, lo: int, mid: int, hi: int)
    requires Tiles(a, lo, mid) && Tiles(b, mid, hi)
    ensures Tiles(a + b, lo, hi)
  {
    if a == [] {
      assert a + b == b;
    } else {
      assert (a + b)[0] == a[0] && (a + b)[1..] == a[1..] + b;
      TilesJoin(a[1..], b, a[0].hi, mid, hi);
    }
  }

  lemma NoTiles(at: int)
    ensures Tiles([], at, at)
  {
  }

  lemma OneTile(p: Placed)
    ensures Tiles([p], p.lo, p.hi)
  {
    assert [p][1..] == [];
  }

  lemma {:induction false} MarkedTiles(s: seq<Placed>, lo: int, hi: int, l: int, h: int)
    requires Tiles(s, lo, hi)
    ensures Tiles(Marked(s, l, h), lo, hi)
  {
    if s != [] {
      MarkedTiles(s[1..], s[0].hi, hi, l, h);
      assert Marked(s, l, h)[1..] == Marked(s[1..], l, h);
    }
  }

  /** The flattened stream of a tree is as long as the tree's padded length says. */
  lemma {:induction false} LaidTiles(t: Tree, all: bool, at: int)
    requires Sized(t)
    ensures Tiles(Laid(t, all, at), at, at + Padded(t, all))
    decreases t, 1
  {
    if !t.text {
      var close := at + 1 + Length(t, all);
      var start, end := StartTag(t, all, at), EndTag(t, all, at);
      var inner := Content(t, all, at + 1);
      hide Tiles, Content, Sized, Marked;
      ContentTiles(t, all, at + 1);
      OneTile(start);
      OneTile(end);
      MarkedTiles(inner, at + 1, close, at + 1, close);
      TilesJoin([start], Marked(inner, at + 1, close), at, at + 1, close);
      TilesJoin([start] + Marked(inner, at + 1, close), [end], at, close, close + 1);
    }
  }

  lemma {:induction false} ContentTiles(t: Tree, all: bool, at: int)
    requires Sized(t) && !t.text
    ensures Tiles(Content(t, all, at), at, at + Length(t, all))
    decreases t, 0, |t.kids| + 1
  {
    hide Tiles, Sized, Shown, AllSized;
    ShownAreKids(t.kids, all);
    ShownSized(t, all);
    ElementOwn(t);
    ShownFewer(t.kids, all);
    KidsTile(t, Shown(t.kids, all), all, at);
  }

  lemma {:induction false} ShownFewer(kids: seq<Tree>, all: bool)
    ensures |Shown(kids, all)| <= |kids|
  {
    if kids != [] {
      ShownFewer(kids[1..], all);
    }
  }

  lemma {:induction false} KidsTile(t: Tree, kids: seq<Tree>, all: bool, at: int)
    requires AllSized(kids) && forall x :: x in kids ==> x in t.kids
    ensures Tiles(LaidKids(t, kids, all, at), at, at + Sum(kids, all))
    decreases t, 0, |kids|
  {
    hide Laid, Sized, Tiles, Padded;
    if kids == [] {
      NoTiles(at);
    } else {
      assert kids[0] in t.kids;
      var next := at + Padded(kids[0], all);
      LaidTiles(kids[0], all, at);
      KidsTile(t, kids[1..], all, next);
      TilesJoin(Laid(kids[0], all, at), LaidKids(t, kids[1..], all, next), at, next, at + Sum(kids, all));
    }
  }

  /** What a view of a tree shows, without places. */
  datatype Shape = Words(tag: int, length: int) | Element(tag: int, parts: seq<Shape>)

  function ShapeOf(t: Tree, all: bool): (s: Shape)
    decreases t, 1
  {
    if t.text then Words(t.tag, Length(t, all))
    else
      ShownAreKids(t.kids, all);
      Element(t.tag, ShapesOf(t, Shown(t.kids, all), all))
  }

  function ShapesOf(t: Tree, kids: seq<Tree>, all: bool): (s: seq<Shape>)
    requires forall x :: x in kids ==> x in t.kids
    decreases t, 0, |kids|
  {
    if kids == [] then []
    else
      assert kids[0] in t.kids;
      [ShapeOf(kids[0], all)] + ShapesOf(t, kids[1..], all)
  }

  /** An element whose end tag is still to come, announced at `close`, and what stood before it. */
  datatype Open = Open(tag: int, close: int, before: seq<Shape>)

  /** Reads a stream as nested tags; an end tag must be that of the element opened last, at the place announced. */
  function Read(s: seq<Placed>, open: seq<Open>, done: seq<Shape>): (r: Result<seq<Shape>>) {
    if s == [] then
      if open == [] then Ok(done) else Err
    else
      var p := s[0];
      match p.kind
      case Text => Read(s[1..], open, done + [Words(p.tag, p.hi - p.lo)])
      case Start => Read(s[1..], [Open(p.tag, p.close, done)] + open, [])
      case End =>
        if open == [] || open[0].tag != p.tag || open[0].close != p.lo then Err
        else Read(s[1..], open[1..], open[0].before + [Element(p.tag, done)])
  }

  lemma {:induction false} ReadMarked(s: seq<Placed>, l: int, h: int, rest: seq<Placed>, open: seq<Open>,
                                      done: seq<Shape>)
    ensures Read(Marked(s, l, h) + rest, open, done) == Read(s + rest, open, done)
    decreases |s|
  {
    if s != [] {
      var p := s[0];
      var m, u := Marked(s, l, h) + rest, s + rest;
      assert m[1..] == Marked(s[1..], l, h) + rest && u[1..] == s[1..] + rest && u[0] == p;
      assert m[0].tag == p.tag && m[0].kind == p.kind && m[0].lo == p.lo && m[0].hi == p.hi && m[0].close == p.close;
      match p.kind {
        case Text => ReadMarked(s[1..], l, h, rest, open, done + [Words(p.tag, p.hi - p.lo)]);
        case Start => ReadMarked(s[1..], l, h, rest, [Open(p.tag, p.close, done)] + open, []);
        case End =>
          if open != [] {
            ReadMarked(s[1..], l, h, rest, open[1..], open[0].before + [Element(p.tag, done)]);
          }
      }
    } else {
      assert Marked(s, l, h) == s;
    }
  }

  lemma {:induction false} ReadLaid(t: Tree, all: bool, at: int, rest: seq<Placed>, open: seq<Open>, done: seq<Shape>)
    ensures Read(Laid(t, all, at) + rest, open, done) == Read(rest, open, done + [ShapeOf(t, all)])
    decreases t, 1
  {
    var s := Laid(t, all, at) + rest;
    if t.text {
      assert s[1..] == rest;
    } else {
      ShownAreKids(t.kids, all);
      var close, inner := at + 1 + Length(t, all), Content(t, all, at + 1);
      var tail := [EndTag(t, all, at)] + rest;
      var open' := [Open(t.tag, close, done)] + open;
      assert s[0] == StartTag(t, all, at) && s[1..] == Marked(inner, at + 1, close) + tail;
      var kids := Shown(t.kids, all);
      assert inner == LaidKids(t, kids, all, at + 1);
      hide Marked, Content, Laid;
      ReadMarked(inner, at + 1, close, tail, open', []);
      ReadKids(t, kids, all, at + 1, tail, open', []);
      assert tail[0] == EndTag(t, all, at) && tail[1..] == rest && open'[1..] == open;
      assert [] + ShapesOf(t, kids, all) == ShapesOf(t, kids, all);
    }
  }

  lemma {:induction false} ReadKids(t: Tree, kids: seq<Tree>, all: bool, at: int, rest: seq<Placed>, open: seq<Open>,
                                    done: seq<Shape>)
    requires forall x :: x in kids ==> x in t.kids
    ensures Read(LaidKids(t, kids, all, at) + rest, open, done) == Read(rest, open, done + ShapesOf(t, kids, all))
    decreases t, 0, |kids|
  {
    hide Read, Laid, ShapeOf, Padded;
    if kids == [] {
      assert LaidKids(t, kids, all, at) + rest == rest && done + ShapesOf(t, kids, all) == done;
    } else {
      assert kids[0] in t.kids;
      var next := at + Padded(kids[0], all);
      var more := LaidKids(t, kids[1..], all, next);
      var first := done + [ShapeOf(kids[0], all)];
      assert LaidKids(t, kids, all, at) + rest == Laid(kids[0], all, at) + (more + rest);
      ReadLaid(kids[0], all, at, more + rest, open, done);
      ReadKids(t, kids[1..], all, next, rest, open, first);
      assert first + ShapesOf(t, kids[1..], all) == done + ShapesOf(t, kids, all);
    }
  }

  /** The flattened stream is well nested and spells what the view shows: reading it back gives the shape. */
  lemma StreamSpells(t: Tree, all: bool, at: int)
    ensures Read(Laid(t, all, at), [], []) == Ok([ShapeOf(t, all)])
  {
    ReadLaid(t, all, at, [], [], []);
    assert Laid(t, all, at) + [] == Laid(t, all, at) && [] + [ShapeOf(t, all)] == [ShapeOf(t, all)];
  }

  /** The token lies in `lo..hi` and its element ends there too; an empty text may stand anywhere in it. */
  predicate Within(p: Placed, lo: int, hi: int) {
    && lo <= p.lo <= p.hi <= hi
    && if p.lo == p.hi then p.kind == Text && p.close == p.lo else lo <= p.close < hi
  }

  predicate AllWithin(s: seq<Placed>, lo: int, hi: int) {
    forall i :: 0 <= i < |s| ==> Within(s[i], lo, hi)
  }

  /** As `Within`, and strictly so for an empty text that is not dull. */
  predicate Inside(p: Placed, lo: int, hi: int) {
    Within(p, lo, hi) && (p.lo == p.hi && !p.dull ==> lo < p.lo < hi)
  }

  predicate AllInside(s: seq<Placed>, lo: int, hi: int) {
    forall i :: 0 <= i < |s| ==> Inside(s[i], lo, hi)
  }

  lemma MarkedInside(s: seq<Placed>, lo: int, hi: int)
    requires AllWithin(s, lo, hi)
    ensures AllInside(Marked(s, lo, hi), lo, hi) && AllWithin(Marked(s, lo, hi), lo, hi)
  {
    forall i | 0 <= i < |s| ensures Inside(Marked(s, lo, hi)[i], lo, hi) {
      assert Within(s[i], lo, hi);
    }
  }

  lemma {:induction false} LaidWithin(t: Tree, all: bool, at: int)
    requires Sized(t)
    ensures AllWithin(Laid(t, all, at), at, at + Padded(t, all))
    decreases t, 2
  {
    LengthsNatural(t, all);
    if !t.text {
      hide AllWithin, AllInside, Marked, Content, Sized;
      var close := at + 1 + Length(t, all);
      var start, end := [StartTag(t, all, at)], [EndTag(t, all, at)];
      var inner := Content(t, all, at + 1);
      ContentWithin(t, all, at + 1);
      MarkedInside(inner, at + 1, close);
      OneWithin(StartTag(t, all, at), at, close + 1);
      OneWithin(EndTag(t, all, at), at, close + 1);
      JoinWithin(start, at, close + 1, Marked(inner, at + 1, close), at + 1, close, at, close + 1);
      JoinWithin(start + Marked(inner, at + 1, close), at, close + 1, end, at, close + 1, at, close + 1);
    }
  }

  lemma OneWithin(p: Placed, lo: int, hi: int)
    requires Within(p, lo, hi)
    ensures AllWithin([p], lo, hi)
  {
  }

  lemma JoinWithin(a: seq<Placed>, l1: int, h1: int, b: seq<Placed>, l2: int, h2: int, lo: int, hi: int)
    requires AllWithin(a, l1, h1) && AllWithin(b, l2, h2) && lo <= l1 && lo <= l2 && h1 <= hi && h2 <= hi
    ensures AllWithin(a + b, lo, hi)
  {
    forall i | 0 <= i < |a + b| ensures Within((a + b)[i], lo, hi) {
      if i < |a| { assert Within(a[i], l1, h1); } else { assert Within(b[i - |a|], l2, h2); }
    }
  }

  lemma {:induction false} ContentWithin(t: Tree, all: bool, at: int)
    requires Sized(t) && !t.text
    ensures AllWithin(Content(t, all, at), at, at + Length(t, all))
    decreases t, 1
  {
    hide Sized, Shown, AllWithin, AllSized;
    ShownAreKids(t.kids, all);
    ShownSized(t, all);
    ElementOwn(t);
    KidsWithin(t, Shown(t.kids, all), all, at);
  }

  lemma ElementOwn(t: Tree)
    requires Sized(t) && !t.text
    ensures t.own == 0
  {
  }

  lemma {:induction false} KidsWithin(t: Tree, kids: seq<Tree>, all: bool, at: int)
    requires AllSized(kids) && (forall x :: x in kids ==> x in t.kids)
    ensures AllWithin(LaidKids(t, kids, all, at), at, at + Sum(kids, all)) && 0 <= Sum(kids, all)
    decreases t, 0, |kids|
  {
    hide Laid;
    if kids != [] {
      assert kids[0] in t.kids;
      LaidWithin(kids[0], all, at);
      LengthsNatural(kids[0], all);
      var next := at + Padded(kids[0], all);
      KidsWithin(t, kids[1..], all, next);
      hide Sized, AllWithin;
      JoinWithin(Laid(kids[0], all, at), at, next, LaidKids(t, kids[1..], all, next), next, next + Sum(kids[1..], all),
                 at, at + Sum(kids, all));
    }
  }

  function Moved(p: Placed, d: int): (r: Placed) {
    p.(lo := p.lo + d, hi := p.hi + d, close := p.close + d)
  }

  function MovedAll(s: seq<Placed>, d: int): (r: seq<Placed>) {
    seq(|s|, i requires 0 <= i < |s| => Moved(s[i], d))
  }

  /** Where a tree is laid out from does not matter otherwise. */
  lemma {:induction false} LaidMoved(t: Tree, all: bool, at: int, d: int)
    ensures Laid(t, all, at + d) == MovedAll(Laid(t, all, at), d)
    decreases t, 2
  {
    if !t.text {
      var close := at + 1 + Length(t, all);
      var inner := Content(t, all, at + 1);
      ContentMoved(t, all, at + 1, d);
      assert at + 1 + d == at + d + 1;
      hide Content;
      MarkedMoved(inner, at + 1, close, d);
      MovedSplit([StartTag(t, all, at)], Marked(inner, at + 1, close), d);
      MovedSplit([StartTag(t, all, at)] + Marked(inner, at + 1, close), [EndTag(t, all, at)], d);
      assert close + d == at + d + 1 + Length(t, all);
    }
  }

  lemma MarkedMoved(s: seq<Placed>, lo: int, hi: int, d: int)
    ensures Marked(MovedAll(s, d), lo + d, hi + d) == MovedAll(Marked(s, lo, hi), d)
  {
  }

  lemma {:induction false} ContentMoved(t: Tree, all: bool, at: int, d: int)
    ensures Content(t, all, at + d) == MovedAll(Content(t, all, at), d)
    decreases t, 1
  {
    ShownAreKids(t.kids, all);
    KidsMoved(t, Shown(t.kids, all), all, at, d);
  }

  lemma {:induction false} KidsMoved(t: Tree, kids: seq<Tree>, all: bool, at: int, d: int)
    requires forall x :: x in kids ==> x in t.kids
    ensures LaidKids(t, kids, all, at + d) == MovedAll(LaidKids(t, kids, all, at), d)
    decreases t, 0, |kids|
  {
    hide Laid;
    if kids != [] {
      assert kids[0] in t.kids;
      LaidMoved(kids[0], all, at, d);
      var next := at + Padded(kids[0], all);
      KidsMoved(t, kids[1..], all, next, d);
      assert next + d == at + d + Padded(kids[0], all);
      MovedSplit(Laid(kids[0], all, at), LaidKids(t, kids[1..], all, next), d);
    }
  }

  lemma MovedSplit(a: seq<Placed>, b: seq<Placed>, d: int)
    ensures MovedAll(a + b, d) == MovedAll(a, d) + MovedAll(b, d)
  {
  }

  function Max(a: int, b: int): (r: int) {
    if a > b then a else b
  }

  function Min(a: int, b: int): (r: int) {
    if a < b then a else b
  }

  /** Selecting from a stretch that starts at `d` is selecting, in its own coordinates, what of the range it can see. */
  lemma {:induction false} SelectedWithin(s: seq<Placed>, d: int, len: int, from: int, to: int)
    requires AllInside(s, 0, len)
    ensures Selected(MovedAll(s, d), from, to) == Selected(s, Max(0, from - d), Min(to - d, len))
  {
    if s != [] {
      var m := MovedAll(s, d);
      assert Inside(s[0], 0, len) && m[0] == Moved(s[0], d);
      assert m[1..] == MovedAll(s[1..], d);
      forall i | 0 <= i < |s[1..]| ensures Inside(s[1..][i], 0, len) {
        assert s[1..][i] == s[i + 1];
      }
      SelectedWithin(s[1..], d, len, from, to);
    }
  }

  lemma {:induction false} NothingSelected(s: seq<Placed>, len: int, from: int, to: int)
    requires AllInside(s, 0, len) && (to <= 0 || from >= len)
    ensures Selected(s, from, to) == []
  {
    if s != [] {
      assert Inside(s[0], 0, len);
      forall i | 0 <= i < |s[1..]| ensures Inside(s[1..][i], 0, len) {
        assert s[1..][i] == s[i + 1];
      }
      NothingSelected(s[1..], len, from, to);
    }
  }

  /** What a range, not empty and within the length, takes of the content of `t`. */
  function Between(t: Tree, all: bool, from: int, to: int): (r: seq<Token>) {
    if from == to then [] else Selected(Content(t, all, 0), from, to)
  }

  /** The part of a range that an element standing at `pos` can see, in its own coordinates, is one it accepts. */
  lemma SubrangeOk(child: Tree, all: bool, pos: int, from: int, to: int)
    requires Sized(child) && from < to && from - Padded(child, all) < pos < to
    ensures var skip := if child.text then 0 else 1;
            var f, t := Max(0, from - pos - skip), Min(to - pos - skip, Length(child, all));
            f <= t && f <= Length(child, all) && t <= Length(child, all)
  {
    LengthsNatural(child, all);
  }

  lemma OneSelected(p: Placed, from: int, to: int)
    ensures Selected([p], from, to) == if Taken(p, from, to) then [Emitted(p, to)] else []
  {
    assert [p][1..] == [];
  }

  /** Seen from inside, the marks at the edges make no difference: no range within the content takes them. */
  lemma {:induction false} EdgesUntaken(s: seq<Placed>, len: int, from: int, to: int)
    requires 0 <= from && to <= len && 0 <= len
    ensures Selected(Marked(s, 0, len), from, to) == Selected(s, from, to)
  {
    if s != [] {
      EdgesUntaken(s[1..], len, from, to);
      assert Marked(s, 0, len)[1..] == Marked(s[1..], 0, len);
    }
  }

  /** The marked content of an element from `at` on. */
  function Inner(t: Tree, all: bool, at: int): (s: seq<Placed>) {
    Marked(Content(t, all, at), at, at + Length(t, all))
  }

  lemma InnerInside(t: Tree, all: bool, at: int)
    requires Sized(t) && !t.text
    ensures AllInside(Inner(t, all, at), at, at + Length(t, all))
    ensures Inner(t, all, at) == MovedAll(Inner(t, all, 0), at)
  {
    var s, len := Content(t, all, 0), Length(t, all);
    ContentMoved(t, all, 0, at);
    assert 0 + at == at && 0 + len + at == at + len;
    ContentWithin(t, all, at);
    hide Content, Sized, AllWithin, AllInside;
    MarkedInside(Content(t, all, at), at, at + len);
    MarkedMoved(s, 0, 0 + len, at);
  }

  lemma ContentBetween(child: Tree, all: bool, pos: int, from: int, to: int)
    requires Sized(child) && !child.text && from < to
    ensures Selected(Inner(child, all, pos), from, to) ==
              Between(child, all, Max(0, from - pos), Min(to - pos, Length(child, all)))
  {
    var len := Length(child, all);
    var f, t := Max(0, from - pos), Min(to - pos, len);
    LengthsNatural(child, all);
    InnerInside(child, all, pos);
    InnerInside(child, all, 0);
    assert 0 + len == len;
    var inner := Inner(child, all, 0);
    assert inner == Marked(Content(child, all, 0), 0, len);
    hide Content, Sized, Selected, AllInside, Inner, Marked, MovedAll;
    SelectedWithin(inner, pos, len, from, to);
    EdgesUntaken(Content(child, all, 0), len, f, t);
    if f == t { NothingSelected(inner, len, f, t); }
  }

  lemma ContentMissed(child: Tree, all: bool, pos: int, from: int, to: int)
    requires Sized(child) && !child.text && from < to
    requires to <= pos || pos + Length(child, all) <= from
    ensures Selected(Inner(child, all, pos), from, to) == []
  {
    var len := Length(child, all);
    var f, t := Max(0, from - pos), Min(to - pos, len);
    InnerInside(child, all, pos);
    InnerInside(child, all, 0);
    LengthsNatural(child, all);
    assert 0 + len == len;
    hide Content, Sized, Selected, AllInside, Inner, MovedAll;
    SelectedWithin(Inner(child, all, 0), pos, len, from, to);
    NothingSelected(Inner(child, all, 0), len, f, t);
  }

  /** What the range takes of one child: its start, of its content, its end. */
  lemma ElementBetween(child: Tree, all: bool, pos: int, from: int, to: int)
    requires Sized(child) && !child.text && from < to
    ensures var len := Length(child, all);
            var f, t := Max(0, from - (pos + 1)), Min(to - (pos + 1), len);
            Selected(Laid(child, all, pos), from, to) ==
              if from - Padded(child, all) < pos < to then
                (if from - pos - 1 < 0 then [Token(child.tag, Start, to - pos - 1 > len)] else [])
                + Between(child, all, f, t)
                + (if to - pos - 1 > len then [Token(child.tag, End, true)] else [])
              else []
  {
    hide Inner, Sized, Selected, Between, Laid, Max, Min;
    ElementPieces(child, all, pos, from, to);
    LengthsNatural(child, all);
    if from - Padded(child, all) < pos < to {
      ContentBetween(child, all, pos + 1, from, to);
    } else {
      ContentMissed(child, all, pos + 1, from, to);
    }
  }

  lemma ElementPieces(child: Tree, all: bool, pos: int, from: int, to: int)
    requires !child.text
    ensures var close := pos + 1 + Length(child, all);
            Selected(Laid(child, all, pos), from, to) ==
              (if pos < to && from < pos + 1 then [Token(child.tag, Start, close < to)] else [])
              + Selected(Inner(child, all, pos + 1), from, to)
              + (if close < to && from < close + 1 then [Token(child.tag, End, true)] else [])
  {
    var inner := Inner(child, all, pos + 1);
    var start, end := StartTag(child, all, pos), EndTag(child, all, pos);
    assert Laid(child, all, pos) == [start] + inner + [end];
    hide Inner, Selected, Laid;
    SelectedSplit([start], inner, from, to);
    SelectedSplit([start] + inner, [end], from, to);
    OneSelected(start, from, to);
    OneSelected(end, from, to);
  }

  lemma TextBetween(child: Tree, all: bool, pos: int, from: int, to: int)
    requires child.text
    ensures Selected(Laid(child, all, pos), from, to) ==
              if from - Padded(child, all) < pos < to then [Token(child.tag, Text, false)] else []
  {
  }

  lemma {:induction false} KidsAppend(t: Tree, kids: seq<Tree>, k: Tree, all: bool, at: int)
    requires (forall x :: x in kids ==> x in t.kids) && k in t.kids
    ensures forall x :: x in kids + [k] ==> x in t.kids
    ensures LaidKids(t, kids + [k], all, at) == LaidKids(t, kids, all, at) + Laid(k, all, at + Sum(kids, all))
    ensures Sum(kids + [k], all) == Sum(kids, all) + Padded(k, all)
  {
    hide Laid, Padded;
    if kids == [] {
      assert [k][1..] == [];
      assert LaidKids(t, [k], all, at) == Laid(k, all, at) + LaidKids(t, [], all, at + Padded(k, all));
    } else {
      var at' := at + Padded(kids[0], all);
      assert (kids + [k])[1..] == kids[1..] + [k] && (kids + [k])[0] == kids[0];
      KidsAppend(t, kids[1..], k, all, at');
      assert at' + Sum(kids[1..], all) == at + Sum(kids, all);
    }
  }

  /** What the range takes of the first `i` children shown. */
  ghost function TokensUpTo(t: Tree, all: bool, i: int, from: int, to: int): (r: seq<Token>)
    requires 0 <= i <= |Shown(t.kids, all)|
  {
    ShownAreKids(t.kids, all);
    Selected(LaidKids(t, Shown(t.kids, all)[..i], all, 0), from, to)
  }

  lemma NextChild(t: Tree, all: bool, i: int, from: int, to: int)
    requires 0 <= i < |Shown(t.kids, all)|
    ensures var kids := Shown(t.kids, all);
            && kids[i] in t.kids
            && Sum(kids[..i + 1], all) == Sum(kids[..i], all) + Padded(kids[i], all)
            && TokensUpTo(t, all, i + 1, from, to) ==
                 TokensUpTo(t, all, i, from, to) + Selected(Laid(kids[i], all, Sum(kids[..i], all)), from, to)
  {
    var kids := Shown(t.kids, all);
    ShownAreKids(t.kids, all);
    assert kids[i] in kids;
    hide Shown, Selected, Laid;
    KidsAppend(t, kids[..i], kids[i], all, 0);
    assert kids[..i + 1] == kids[..i] + [kids[i]];
    assert 0 + Sum(kids[..i], all) == Sum(kids[..i], all);
    SelectedSplit(LaidKids(t, kids[..i], all, 0), Laid(kids[i], all, Sum(kids[..i], all)), from, to);
  }

  lemma AllTokens(t: Tree, all: bool, from: int, to: int)
    requires from != to
    ensures TokensUpTo(t, all, |Shown(t.kids, all)|, from, to) == Between(t, all, from, to)
    ensures TokensUpTo(t, all, 0, from, to) == [] && Sum(Shown(t.kids, all)[..0], all) == 0
  {
    assert Shown(t.kids, all)[..|Shown(t.kids, all)|] == Shown(t.kids, all);
  }

  /** The tokens the range takes of one child standing at `pos`. */
  method TokensOf(child: Tree, pos: int, from: int, to: int, all: bool) returns (tokens: seq<Token>)
    requires Sized(child) && from < to
    ensures tokens == Selected(Laid(child, all, pos), from, to)
    decreases child, 1
  {
    hide Sized, Laid, Between, Padded, Selected;
    tokens := [];
    if child.text { TextBetween(child, all, pos, from, to); } else { ElementBetween(child, all, pos, from, to); }
    if from - Padded(child, all) < pos && pos < to {
      SubrangeOk(child, all, pos, from, to);
      TextHasNoContent(child, all);
      var skip := if child.text then 0 else 1;
      var fromChild, toChild := from - (pos + skip), to - (pos + skip);
      var childLength := Length(child, all);
      var startContained := !child.text && fromChild < 0;
      var endContained := !child.text && toChild > childLength;
      if child.text || startContained {
        tokens := tokens + [Token(child.tag, if child.text then Text else Start, endContained)];
      }
      var inner := TokensBetween(child, Max(0, fromChild), Min(toChild, childLength), all);
      assert inner.Ok?;
      tokens := tokens + inner.value;
      if endContained {
        tokens := tokens + [Token(child.tag, End, endContained)];
      }
    }
  }

  lemma TextHasNoContent(t: Tree, all: bool)
    requires Sized(t)
    ensures t.text ==> forall from, to :: Between(t, all, from, to) == []
  {
    if t.text {
      assert Content(t, all, 0) == [];
    }
  }

  /**
   The tokens of a range: exactly those whose stretch of the flattened stream the range meets, in
   order, but for dull ones. Only the outermost call can be out of range; the calls below never fail.
   */
  method TokensBetween(root: Tree, from: int, to: int, all: bool) returns (r: Result<seq<Token>>)
    requires Sized(root)
    ensures r.Err? <==> from > to || from > Length(root, all) || to > Length(root, all)
    ensures r.Ok? ==> r.value == Between(root, all, from, to)
    decreases root, 0
  {
    var length := Length(root, all);
    if from > to || from > length || to > length {
      return Err;
    }
    if from == to {
      return Ok([]);
    }
    var children := Shown(root.kids, all);
    ShownSized(root, all);
    AllTokens(root, all, from, to);
    hide Sized, Shown, Laid, Between, TokensUpTo, Sum;
    var pos := 0;
    var out: seq<Token> := [];
    for i := 0 to |children|
      invariant pos == Sum(children[..i], all)
      invariant out == TokensUpTo(root, all, i, from, to)
    {
      var child := children[i];
      NextChild(root, all, i, from, to);
      var tokens := TokensOf(child, pos, from, to, all);
      out := out + tokens;
      pos := pos + Padded(child, all);
    }
    return Ok(out);
  }

  // ---- The flattened stream itself ---------------------------------------------------------

  /** All tokens of the stream whose stretch the range meets, dull or not. */
  function Met(s: seq<Placed>, from: int, to: int): (r: seq<Token>) {
    if s == [] then []
    else (if Meets(s[0], from, to) then [Emitted(s[0], to)] else []) + Met(s[1..], from, to)
  }

  function Streamed(t: Tree, all: bool, from: int, to: int): (r: seq<Token>) {
    if from == to then [] else Met(Content(t, all, 0), from, to)
  }

  /** No element below `t` that the view shows has an empty text at the very start or end of its content. */
  predicate NoneDull(t: Tree, all: bool) {
    var s := Content(t, all, 0);
    forall i :: 0 <= i < |s| ==> !s[i].dull
  }

  predicate Deep(p: Placed, lo: int, hi: int) {
    p.dull ==> p.lo == p.hi && lo < p.lo < hi
  }

  predicate AllDeep(s: seq<Placed>, lo: int, hi: int) {
    forall i :: 0 <= i < |s| ==> Deep(s[i], lo, hi)
  }

  lemma MarkedDeep(s: seq<Placed>, lo: int, hi: int)
    requires AllDeep(s, lo, hi) && lo <= hi
    ensures AllDeep(Marked(s, lo, hi), lo - 1, hi + 1)
  {
    forall i | 0 <= i < |s| ensures Deep(Marked(s, lo, hi)[i], lo - 1, hi + 1) {
      assert Deep(s[i], lo, hi);
    }
  }

  lemma JoinDeep(a: seq<Placed>, l1: int, h1: int, b: seq<Placed>, l2: int, h2: int, lo: int, hi: int)
    requires AllDeep(a, l1, h1) && AllDeep(b, l2, h2) && lo <= l1 && lo <= l2 && h1 <= hi && h2 <= hi
    ensures AllDeep(a + b, lo, hi)
  {
    forall i | 0 <= i < |a + b| ensures Deep((a + b)[i], lo, hi) {
      if i < |a| { assert Deep(a[i], l1, h1); } else { assert Deep(b[i - |a|], l2, h2); }
    }
  }

  lemma {:induction false} LaidDeep(t: Tree, all: bool, at: int)
    requires Sized(t)
    ensures AllDeep(Laid(t, all, at), at, at + Padded(t, all))
    decreases t, 2
  {
    LengthsNatural(t, all);
    if !t.text {
      var close := at + 1 + Length(t, all);
      var start, end := [StartTag(t, all, at)], [EndTag(t, all, at)];
      var inner := Content(t, all, at + 1);
      ContentDeep(t, all, at + 1);
      MarkedDeep(inner, at + 1, close);
      assert AllDeep(start, at, close + 1) && AllDeep(end, at, close + 1);
      hide AllDeep, Marked, Content, Sized;
      JoinDeep(start, at, close + 1, Marked(inner, at + 1, close), at, close + 1, at, close + 1);
      JoinDeep(start + Marked(inner, at + 1, close), at, close + 1, end, at, close + 1, at, close + 1);
    }
  }

  lemma {:induction false} ContentDeep(t: Tree, all: bool, at: int)
    requires Sized(t) && !t.text
    ensures AllDeep(Content(t, all, at), at, at + Length(t, all))
    decreases t, 1
  {
    hide Sized, Shown, AllDeep, AllSized;
    ShownAreKids(t.kids, all);
    ShownSized(t, all);
    ElementOwn(t);
    KidsDeep(t, Shown(t.kids, all), all, at);
  }

  lemma {:induction false} KidsDeep(t: Tree, kids: seq<Tree>, all: bool, at: int)
    requires AllSized(kids) && (forall x :: x in kids ==> x in t.kids)
    ensures AllDeep(LaidKids(t, kids, all, at), at, at + Sum(kids, all)) && 0 <= Sum(kids, all)
    decreases t, 0, |kids|
  {
    hide Laid;
    if kids != [] {
      assert kids[0] in t.kids;
      LaidDeep(kids[0], all, at);
      LengthsNatural(kids[0], all);
      var next := at + Padded(kids[0], all);
      KidsDeep(t, kids[1..], all, next);
      hide Sized, AllDeep;
      JoinDeep(Laid(kids[0], all, at), at, next, LaidKids(t, kids[1..], all, next), next, next + Sum(kids[1..], all),
               at, at + Sum(kids, all));
    }
  }

  lemma {:induction false} MetAll(s: seq<Placed>, from: int, to: int)
    requires forall i :: 0 <= i < |s| ==> !s[i].dull
    ensures Met(s, from, to) == Selected(s, from, to)
  {
    if s != [] {
      assert forall i :: 0 <= i < |s[1..]| ==> s[1..][i] == s[i + 1];
      MetAll(s[1..], from, to);
    }
  }

  lemma {:induction false} MetMore(s: seq<Placed>, from: int, to: int)
    ensures |Selected(s, from, to)| <= |Met(s, from, to)|
    ensures forall i :: 0 <= i < |s| && s[i].dull && Meets(s[i], from, to) ==>
            |Selected(s, from, to)| < |Met(s, from, to)|
  {
    if s != [] {
      MetMore(s[1..], from, to);
      assert forall i :: 0 < i < |s| ==> s[i] == s[1..][i - 1];
    }
  }

  /**
   The range query yields exactly the tokens of the flattened stream that the range meets, for
   every range within the length, if and only if no element below the root has an empty text at
   the very start or end of its content.
   */
  lemma StreamedIffNoneDull(t: Tree, all: bool)
    requires Sized(t) && !t.text
    ensures NoneDull(t, all) <==>
      forall from, to :: 0 <= from <= to <= Length(t, all) ==> Between(t, all, from, to) == Streamed(t, all, from, to)
  {
    var s, len := Content(t, all, 0), Length(t, all);
    hide Content, Sized;
    if NoneDull(t, all) {
      forall from, to | 0 <= from <= to <= len ensures Between(t, all, from, to) == Streamed(t, all, from, to) {
        MetAll(s, from, to);
      }
    } else {
      var i :| 0 <= i < |s| && s[i].dull;
      ContentDeep(t, all, 0);
      assert Deep(s[i], 0, 0 + len);
      var from, to := s[i].lo - 1, s[i].lo + 1;
      MetMore(s, from, to);
      assert Between(t, all, from, to) != Streamed(t, all, from, to);
    }
  }

  /** An element that holds nothing but an empty text: the query over it leaves the text out. */
  lemma EmptyTextLost(a: int, b: int, c: int)
    ensures var text := Tree(c, true, false, 0, 0, 0, []);
            var root := Tree(a, false, false, 0, 2, 2, [Tree(b, false, false, 0, 0, 0, [text])]);
            && Sized(root) && !NoneDull(root, false)
            && Between(root, false, 0, 2) == [Token(b, Start, true), Token(b, End, true)]
            && Streamed(root, false, 0, 2) == [Token(b, Start, true), Token(c, Text, false), Token(b, End, true)]
  {
    var text := Tree(c, true, false, 0, 0, 0, []);
    var element := Tree(b, false, false, 0, 0, 0, [text]);
    var root := Tree(a, false, false, 0, 2, 2, [element]);
    assert [text][1..] == [] && [element][1..] == [];
    OnlyKid(text);
    OnlyKid(element);
    assert Sized(text) && Sized(element) && Sized(root);
    var inner := Placed(c, Text, 1, 1, 1, true);
    OneLaid(element, text, 1);
    OneLaid(root, element, 0);
    assert Marked(Content(element, false, 1), 1, 1) == [inner];
    var s := [StartTag(element, false, 0), inner, EndTag(element, false, 0)];
    assert Content(root, false, 0) == s && s[1].dull;
    ThreeTokens(s[0], s[1], s[2], 0, 2);
  }

  lemma OneLaid(t: Tree, k: Tree, at: int)
    requires t.kids == [k] && !k.removed
    ensures Content(t, false, at) == Laid(k, false, at)
  {
    OnlyKid(k);
    assert [k][1..] == [];
    assert LaidKids(t, [k], false, at) == Laid(k, false, at) + LaidKids(t, [k][1..], false, at + Padded(k, false));
  }

  lemma ThreeTokens(p: Placed, q: Placed, r: Placed, from: int, to: int)
    requires Taken(p, from, to) && q.dull && Meets(q, from, to) && Taken(r, from, to)
    ensures Selected([p, q, r], from, to) == [Emitted(p, to), Emitted(r, to)]
    ensures Met([p, q, r], from, to) == [Emitted(p, to), Emitted(q, to), Emitted(r, to)]
  {
    var s := [p, q, r];
    assert s[1..] == [q, r] && s[1..][1..] == [r] && s[1..][1..][1..] == [];
    hide Emitted, Meets;
    assert Selected([r], from, to) == [Emitted(r, to)] && Met([r], from, to) == [Emitted(r, to)];
    assert Selected([q, r], from, to) == [Emitted(r, to)];
    assert Met([q, r], from, to) == [Emitted(q, to)] + [Emitted(r, to)];
  }

  lemma OnlyKid(k: Tree)
    requires !k.removed
    ensures forall all :: Shown([k], all) == [k] && Sum([k], all) == Padded(k, all)
  {
    assert [k][1..] == [];
  }

  // ---- Indexes and positions ------------------------------------------------------------------

  /** A node, by the way down to it through the children, tombstones counted, and an offset in it. */
  datatype Pos = Pos(path: seq<int>, offset: int)

  predicate Reaches(t: Tree, path: seq<int>)
    decreases |path|
  {
    path == [] || (0 <= path[0] < |t.kids| && Reaches(t.kids[path[0]], path[1..]))
  }

  function At(t: Tree, path: seq<int>): (n: Tree)
    requires Reaches(t, path)
    decreases |path|
  {
    if path == [] then t else At(t.kids[path[0]], path[1..])
  }

  /** No node on the way is a tombstone. */
  predicate AllLive(t: Tree, path: seq<int>)
    requires Reaches(t, path)
    decreases |path|
  {
    path == [] || (!t.kids[path[0]].removed && AllLive(t.kids[path[0]], path[1..]))
  }

  /** The offset counts children that the view shows; in text it may be anything. */
  predicate Anchored(t: Tree, pos: Pos, all: bool) {
    && Reaches(t, pos.path)
    && var n := At(t, pos.path); !n.text ==> 0 <= pos.offset <= |Shown(n.kids, all)|
  }

  /** A position among live nodes, within its text if it is in one. */
  predicate ValidPos(t: Tree, pos: Pos) {
    && Anchored(t, pos, false) && AllLive(t, pos.path)
    && var n := At(t, pos.path); n.text ==> 0 <= pos.offset <= n.visible
  }

  /** The size, in a view, of the first `k` children. */
  function Before(kids: seq<Tree>, k: int, all: bool): (n: int)
    requires 0 <= k <= |kids|
  {
    Sum(Shown(kids[..k], all), all)
  }

  /** How much stands before the position within `t`, counted from the root down. */
  function Index(t: Tree, pos: Pos, all: bool): (i: int)
    requires Anchored(t, pos, all)
    decreases |pos.path|
  {
    if pos.path == [] then (if t.text then pos.offset else Sum(Shown(t.kids, all)[..pos.offset], all))
    else
      var k := pos.path[0];
      Before(t.kids, k, all) + (if t.kids[k].text then 0 else 1) + Index(t.kids[k], Pos(pos.path[1..], pos.offset), all)
  }

  lemma {:induction false} ShownSplit(a: seq<Tree>, b: seq<Tree>, all: bool)
    ensures Shown(a + b, all) == Shown(a, all) + Shown(b, all)
  {
    if a == [] {
      assert a + b == b;
    } else {
      assert (a + b)[0] == a[0] && (a + b)[1..] == a[1..] + b;
      ShownSplit(a[1..], b, all);
    }
  }

  lemma ShownPrefix(kids: seq<Tree>, k: int, all: bool)
    requires 0 <= k <= |kids|
    ensures |Shown(kids[..k], all)| <= |Shown(kids, all)|
            && Shown(kids, all)[..|Shown(kids[..k], all)|] == Shown(kids[..k], all)
  {
    assert kids == kids[..k] + kids[k..];
    ShownSplit(kids[..k], kids[k..], all);
  }

  lemma NextBefore(kids: seq<Tree>, k: int, all: bool)
    requires 0 <= k < |kids|
    ensures Before(kids, k + 1, all)
            == Before(kids, k, all) + if all || !kids[k].removed then Padded(kids[k], all) else 0
    ensures |Shown(kids[..k + 1], all)| == |Shown(kids[..k], all)| + if all || !kids[k].removed then 1 else 0
  {
    assert kids[..k + 1] == kids[..k] + [kids[k]];
    ShownAppend(kids[..k], kids[k], all);
    hide Shown;
    SumSplit(Shown(kids[..k], all), [kids[k]], all);
    assert [kids[k]][1..] == [] && Shown(kids[..k], all) + [] == Shown(kids[..k], all);
  }

  lemma BeforeEnds(t: Tree)
    requires Sized(t) && !t.text
    ensures Before(t.kids, 0, false) == 0 && |Shown(t.kids[..0], false)| == 0
    ensures Before(t.kids, |t.kids|, false) == t.visible
  {
    assert t.kids[..|t.kids|] == t.kids;
  }

  /** Stretches of children that are shown do not overlap. */
  lemma {:induction false} BeforeGrows(t: Tree, i: int, j: int)
    requires Sized(t) && 0 <= i < j <= |t.kids|
    ensures Before(t.kids, i, false) <= Before(t.kids, j, false)
    ensures !t.kids[i].removed ==> Before(t.kids, i, false) + Padded(t.kids[i], false) <= Before(t.kids, j, false)
    decreases j
  {
    NextBefore(t.kids, j - 1, false);
    assert Sized(t.kids[j - 1]);
    LengthsNatural(t.kids[j - 1], false);
    if i < j - 1 {
      hide Before, Sized;
      BeforeGrows(t, i, j - 1);
    }
  }

  // ---- Inside text --------------------------------------------------------------------------------

  /** The index falls strictly inside a text that is shown below `t`. */
  predicate MidText(t: Tree, index: int)
    decreases t, 1
  {
    exists k :: 0 <= k < |t.kids| && MidKid(t, index, k)
  }

  predicate MidKid(t: Tree, index: int, k: int)
    requires 0 <= k < |t.kids|
    decreases t, 0
  {
    var kid, at := t.kids[k], Before(t.kids, k, false);
    !kid.removed && if kid.text then at < index < at + kid.visible else MidText(kid, index - at - 1)
  }

  lemma {:induction false} MidBound(t: Tree, index: int)
    requires Sized(t) && !t.text && MidText(t, index)
    ensures 0 < index < t.visible
    decreases t, 1
  {
    var k :| 0 <= k < |t.kids| && MidKid(t, index, k);
    MidKidBound(t, index, k);
    BeforeEnds(t);
    BeforeGrows(t, k, |t.kids|);
    if k > 0 { BeforeGrows(t, 0, k); }
  }

  lemma {:induction false} MidKidBound(t: Tree, index: int, k: int)
    requires Sized(t) && 0 <= k < |t.kids| && MidKid(t, index, k)
    ensures !t.kids[k].removed && Before(t.kids, k, false) < index < Before(t.kids, k, false) + Padded(t.kids[k], false)
    decreases t, 0
  {
    assert Sized(t.kids[k]);
    if !t.kids[k].text {
      MidBound(t.kids[k], index - Before(t.kids, k, false) - 1);
    }
  }

  /** An index between two children is not inside text. */
  lemma MidNone(t: Tree, index: int, j: int)
    requires Sized(t) && 0 <= j <= |t.kids| && Before(t.kids, j, false) == index
    ensures !MidText(t, index)
  {
    hide MidKid, Before, Sized;
    forall k | 0 <= k < |t.kids| ensures !MidKid(t, index, k) {
      if MidKid(t, index, k) {
        MidKidBound(t, index, k);
        if k < j { BeforeGrows(t, k, j); } else if j < k { BeforeGrows(t, j, k); }
      }
    }
  }

  /** An index inside a child is inside text exactly if it is so in that child. */
  lemma MidHere(t: Tree, index: int, j: int)
    requires Sized(t) && 0 <= j < |t.kids| && !t.kids[j].removed
    requires Before(t.kids, j, false) < index < Before(t.kids, j, false) + Padded(t.kids[j], false)
    ensures MidText(t, index) <==> MidKid(t, index, j)
  {
    hide MidKid, Before, Sized;
    forall k | 0 <= k < |t.kids| && k != j ensures !MidKid(t, index, k) {
      if MidKid(t, index, k) {
        MidKidBound(t, index, k);
        if k < j { BeforeGrows(t, k, j); } else { BeforeGrows(t, j, k); }
      }
    }
  }

  // ---- From an index to a position ----------------------------------------------------------------

  /** The first child that is shown from `i` on, or the number of children. */
  function FirstLive(kids: seq<Tree>, i: int): (k: int)
    requires 0 <= i <= |kids|
    ensures i <= k <= |kids| && (k < |kids| ==> !kids[k].removed)
    ensures forall j :: i <= j < k ==> kids[j].removed
    decreases |kids| - i
  {
    if i == |kids| || !kids[i].removed then i else FirstLive(kids, i + 1)
  }

  /** Where a negative index leads: as far to the left as there are live nodes. */
  function Leftmost(t: Tree, index: int, preferText: bool): (p: Pos) {
    if t.text then Pos([], index)
    else
      var k := FirstLive(t.kids, 0);
      if k == |t.kids| then Pos([], 0)
      else
        var inner := Leftmost(t.kids[k], if preferText && t.kids[k].text then index else index - 1, preferText);
        Pos([k] + inner.path, inner.offset)
  }

  /** What index the position found for `index` has. */
  ghost function Regained(t: Tree, index: int, preferText: bool): (i: int) {
    if !preferText && !t.text && MidText(t, index) then index - 1 else index
  }

  // ---- Which of the positions ---------------------------------------------------------------------

  /** A live text that the index lies in, or at an end of. */
  ghost predicate Touches(t: Tree, k: int, index: int)
    requires 0 <= k < |t.kids|
  {
    && !t.kids[k].removed && t.kids[k].text
    && Before(t.kids, k, false) <= index <= Before(t.kids, k, false) + t.kids[k].visible
  }

  /** A live child that the index lies strictly in. */
  ghost predicate Encloses(t: Tree, k: int, index: int)
    requires 0 <= k < |t.kids|
  {
    && !t.kids[k].removed
    && Before(t.kids, k, false) < index < Before(t.kids, k, false) + Padded(t.kids[k], false)
  }

  /** In the first text touched. */
  ghost predicate InFirstText(t: Tree, index: int, p: Pos) {
    && |p.path| == 1 && 0 <= p.path[0] < |t.kids| && Touches(t, p.path[0], index)
    && p.offset == index - Before(t.kids, p.path[0], false)
    && forall j :: 0 <= j < p.path[0] ==> !Touches(t, j, index)
  }

  /** Between children at the index, before every live child that starts there. */
  ghost predicate AtFirstGap(t: Tree, index: int, p: Pos) {
    p.path == [] && exists j :: Gap(t, index, j) && p.offset == |Shown(t.kids[..j], false)|
  }

  ghost predicate Gap(t: Tree, index: int, j: int) {
    && 0 <= j <= |t.kids| && Before(t.kids, j, false) == index
    && forall i :: 0 <= i < j && !t.kids[i].removed ==> Before(t.kids, i, false) != index
  }

  ghost predicate AnyTouches(t: Tree, index: int) {
    exists k :: 0 <= k < |t.kids| && Touches(t, k, index)
  }

  ghost predicate AnyEncloses(t: Tree, index: int) {
    exists k :: 0 <= k < |t.kids| && Encloses(t, k, index)
  }

  /**
   Which position it is: level by level, the first live text that the index touches, if text is
   preferred; else into the child that the index lies strictly in, past its start; else the first
   gap between children at the index.
   */
  ghost predicate Chosen(t: Tree, index: int, preferText: bool, p: Pos) {
    if t.text then p == Pos([], index)
    else if preferText && AnyTouches(t, index) then InFirstText(t, index, p)
    else if AnyEncloses(t, index) then
      && p.path != [] && 0 <= p.path[0] < |t.kids| && Encloses(t, p.path[0], index)
      && Chosen(t.kids[p.path[0]], index - Before(t.kids, p.path[0], false) - 1, preferText,
                Pos(p.path[1..], p.offset))
    else AtFirstGap(t, index, p)
  }

  /** Tombstones add nothing to what is shown. */
  lemma {:induction false} SameShown(t: Tree, i: int, j: int)
    requires 0 <= i <= j <= |t.kids| && forall k :: i <= k < j ==> t.kids[k].removed
    ensures |Shown(t.kids[..i], false)| == |Shown(t.kids[..j], false)|
    decreases j - i
  {
    if i < j {
      NextBefore(t.kids, j - 1, false);
      SameShown(t, i, j - 1);
    }
  }

  lemma OneGap(t: Tree, index: int, i: int, j: int)
    requires Sized(t) && Gap(t, index, i) && Gap(t, index, j) && i <= j
    ensures |Shown(t.kids[..i], false)| == |Shown(t.kids[..j], false)|
  {
    hide Before, Sized;
    forall k | i <= k < j ensures t.kids[k].removed {
      BeforeGrows(t, k, j);
      if i < k { BeforeGrows(t, i, k); }
    }
    SameShown(t, i, j);
  }

  lemma OneEncloses(t: Tree, index: int, i: int, j: int)
    requires Sized(t) && 0 <= i < |t.kids| && 0 <= j < |t.kids| && Encloses(t, i, index) && Encloses(t, j, index)
    ensures i == j
  {
    hide Before, Sized;
    if i < j { BeforeGrows(t, i, j); } else if j < i { BeforeGrows(t, j, i); }
  }

  lemma OneFirstGap(t: Tree, index: int, p: Pos, q: Pos)
    requires Sized(t) && AtFirstGap(t, index, p) && AtFirstGap(t, index, q)
    ensures p == q
  {
    hide Sized, Before;
    var i :| Gap(t, index, i) && p.offset == |Shown(t.kids[..i], false)|;
    var j :| Gap(t, index, j) && q.offset == |Shown(t.kids[..j], false)|;
    if i <= j { OneGap(t, index, i, j); } else { OneGap(t, index, j, i); }
  }

  lemma OneFirstText(t: Tree, index: int, p: Pos, q: Pos)
    requires InFirstText(t, index, p) && InFirstText(t, index, q)
    ensures p == q
  {
    hide Touches, Before;
    assert p.path == [p.path[0]] && q.path == [q.path[0]];
  }

  /** The description leaves no choice. */
  lemma {:induction false} OneChoice(t: Tree, index: int, preferText: bool, p: Pos, q: Pos)
    requires Sized(t) && Chosen(t, index, preferText, p) && Chosen(t, index, preferText, q)
    ensures p == q
    decreases t
  {
    hide Encloses, Before, AtFirstGap, InFirstText, AnyTouches, AnyEncloses, Sized;
    if !t.text {
      if preferText && AnyTouches(t, index) {
        OneFirstText(t, index, p, q);
      } else if AnyEncloses(t, index) {
        OneEncloses(t, index, p.path[0], q.path[0]);
        var k := p.path[0];
        KidSized(t, k);
        OneChoice(t.kids[k], index - Before(t.kids, k, false) - 1, preferText,
                  Pos(p.path[1..], p.offset), Pos(q.path[1..], q.offset));
        assert p.path == [k] + p.path[1..] && q.path == [k] + q.path[1..];
      } else {
        OneFirstGap(t, index, p, q);
      }
    }
  }

  /** The live children before the `j`-th do not start at the index and, if text is preferred, do not touch it. */
  ghost predicate Passed(t: Tree, j: int, index: int, preferText: bool)
    requires 0 <= j <= |t.kids|
  {
    forall i :: 0 <= i < j && !t.kids[i].removed ==>
      Before(t.kids, i, false) != index && (preferText ==> !Touches(t, i, index))
  }

  lemma PassedOn(t: Tree, j: int, index: int, preferText: bool)
    requires 0 <= j < |t.kids| && Passed(t, j, index, preferText)
    requires t.kids[j].removed || (Before(t.kids, j, false) != index && (preferText ==> !Touches(t, j, index)))
    ensures Passed(t, j + 1, index, preferText)
  {
    hide Before, Touches;
  }

  lemma NoneTouches(t: Tree, j: int, index: int)
    requires Sized(t) && 0 <= j <= |t.kids| && Passed(t, j, index, true)
    requires j == |t.kids| || (!t.kids[j].removed && !t.kids[j].text && 0 <= t.kids[j].visible
      && index < Before(t.kids, j, false) + Padded(t.kids[j], false))
    ensures !AnyTouches(t, index)
  {
    hide Before, Sized;
    forall k | 0 <= k < |t.kids| ensures !Touches(t, k, index) {
      if j < k { BeforeGrows(t, j, k); }
    }
  }

  lemma GapChosen(t: Tree, j: int, index: int, preferText: bool)
    requires Sized(t) && !t.text && 0 <= j <= |t.kids| && Before(t.kids, j, false) == index
    requires Passed(t, j, index, preferText)
    requires preferText ==> j == |t.kids| || (!t.kids[j].removed && !t.kids[j].text && 0 <= t.kids[j].visible)
    ensures Chosen(t, index, preferText, Pos([], |Shown(t.kids[..j], false)|))
  {
    hide Before, Sized;
    if preferText { NoneTouches(t, j, index); }
    forall k | 0 <= k < |t.kids| ensures !Encloses(t, k, index) {
      if k < j { BeforeGrows(t, k, j); } else if j < k { BeforeGrows(t, j, k); }
    }
    assert Gap(t, index, j);
  }

  lemma EnclosesAny(t: Tree, k: int, index: int)
    requires 0 <= k < |t.kids| && Encloses(t, k, index)
    ensures AnyEncloses(t, index)
  {
  }

  lemma InnerChosen(t: Tree, k: int, index: int, preferText: bool, inner: Pos)
    requires Sized(t) && !t.text && 0 <= k < |t.kids| && Encloses(t, k, index) && Passed(t, k, index, preferText)
    requires preferText ==> !t.kids[k].text && 0 <= t.kids[k].visible
    requires Chosen(t.kids[k], index - Before(t.kids, k, false) - 1, preferText, inner)
    ensures Chosen(t, index, preferText, Pos([k] + inner.path, inner.offset))
  {
    hide Before, Sized, Passed, AnyTouches, InFirstText, AtFirstGap;
    if preferText { NoneTouches(t, k, index); }
    EnclosesAny(t, k, index);
    hide Encloses, AnyEncloses;
    var p := Pos([k] + inner.path, inner.offset);
    assert p.path[1..] == inner.path && Pos(p.path[1..], p.offset) == inner;
  }

  lemma TextChosen(t: Tree, k: int, index: int)
    requires !t.text && 0 <= k < |t.kids| && Touches(t, k, index) && Passed(t, k, index, true)
    ensures Chosen(t, index, true, Pos([k], index - Before(t.kids, k, false)))
  {
    hide Before;
    assert forall j :: 0 <= j < k ==> !Touches(t, j, index);
    assert AnyTouches(t, index);
  }

  /**
   What is found for an index that is not too large: the position among live nodes that `Chosen`
   describes, which has this index, except that without a preference for text an index strictly
   inside text comes out one lower; for a negative index the leftmost position there is.
   */
  ghost predicate Answers(t: Tree, index: int, preferText: bool, p: Pos) {
    if index < 0 then p == Leftmost(t, index, preferText)
    else ValidPos(t, p) && Chosen(t, index, preferText, p) && Index(t, p, false) == Regained(t, index, preferText)
  }

  /** The position of an index: the first that fits, inside text where there is a choice and text is preferred. */
  method FindTreePos(node: Tree, index: int, preferText: bool) returns (r: Result<Pos>)
    requires Sized(node)
    ensures r.Err? <==> index > node.visible
    ensures r.Ok? ==> Answers(node, index, preferText, r.value)
    decreases node
  {
    hide Before, Shown, Sum, Sized, Answers, FirstLive, Length, Passed;
    LengthsNatural(node, false);
    if index > node.visible {
      return Err;
    }
    if node.text {
      TextAnswers(node, index, preferText);
      return Ok(Pos([], index));
    }
    BeforeEnds(node);
    FirstLiveStarts(node.kids);
    NonePassed(node, index, preferText);
    var offset, pos := 0, 0;
    for j := 0 to |node.kids|
      invariant offset == |Shown(node.kids[..j], false)| && pos == Before(node.kids, j, false)
      invariant if 0 <= index then pos <= index && Passed(node, j, index, preferText)
                else pos == 0 && offset == 0 && FirstLive(node.kids, 0) >= j
    {
      var child := node.kids[j];
      NextBefore(node.kids, j, false);
      if child.removed {
        FirstLiveOn(node.kids, j);
        if 0 <= index { PassedOn(node, j, index, preferText); }
        continue;
      }
      KidSized(node, j);
      if preferText && child.text && child.visible >= index - pos {
        var inner := FindTreePos(child, index - pos, preferText);
        Preferred(node, j, index, inner.value);
        return Ok(Pos([j] + inner.value.path, inner.value.offset));
      }
      if index == pos {
        Beside(node, j, index, preferText);
        return Ok(Pos([], offset));
      }
      if !preferText && Padded(child, false) == index - pos {
        PassedOn(node, j, index, preferText);
        Beside(node, j + 1, index, preferText);
        return Ok(Pos([], offset + 1));
      }
      if Padded(child, false) > index - pos {
        var inner := FindTreePos(child, index - pos - 1, preferText);
        Entered(node, j, index, preferText, inner.value);
        return Ok(Pos([j] + inner.value.path, inner.value.offset));
      }
      PassedOn(node, j, index, preferText);
      pos := pos + Padded(child, false);
      offset := offset + 1;
    }
    if 0 <= index {
      assert node.kids[..|node.kids|] == node.kids;
      Beside(node, |node.kids|, index, preferText);
    } else {
      LeftmostNone(node, index, preferText);
    }
    return Ok(Pos([], offset));
  }

  lemma TextAnswers(t: Tree, index: int, preferText: bool)
    requires t.text && index <= t.visible
    ensures Answers(t, index, preferText, Pos([], index))
  {
  }

  lemma NonePassed(t: Tree, index: int, preferText: bool)
    ensures Passed(t, 0, index, preferText)
  {
  }

  lemma FirstLiveStarts(kids: seq<Tree>)
    ensures FirstLive(kids, 0) >= 0
  {
  }

  lemma KidSized(t: Tree, j: int)
    requires Sized(t) && 0 <= j < |t.kids|
    ensures Sized(t.kids[j]) && 0 <= t.kids[j].visible
    ensures Padded(t.kids[j], false) == t.kids[j].visible + if t.kids[j].text then 0 else ELEMENT_PADDING
  {
    LengthsNatural(t.kids[j], false);
  }

  lemma FirstLiveOn(kids: seq<Tree>, j: int)
    requires 0 <= j < |kids| && kids[j].removed
    ensures FirstLive(kids, 0) >= j ==> FirstLive(kids, 0) >= j + 1
  {
  }

  lemma LeftmostAt(t: Tree, j: int, index: int, preferText: bool)
    requires !t.text && 0 <= j < |t.kids| && !t.kids[j].removed && FirstLive(t.kids, 0) >= j
    ensures var inner := Leftmost(t.kids[j], if preferText && t.kids[j].text then index else index - 1, preferText);
            Leftmost(t, index, preferText) == Pos([j] + inner.path, inner.offset)
  {
    assert FirstLive(t.kids, 0) == j;
  }

  lemma LeftmostNone(t: Tree, index: int, preferText: bool)
    requires !t.text && FirstLive(t.kids, 0) >= |t.kids| && index < 0
    ensures Answers(t, index, preferText, Pos([], 0))
  {
  }

  /** A position between two children. */
  lemma Beside(t: Tree, j: int, index: int, preferText: bool)
    requires Sized(t) && !t.text && 0 <= j <= |t.kids| && Before(t.kids, j, false) == index && 0 <= index
    requires Passed(t, j, index, preferText)
    requires preferText ==> j == |t.kids| || (!t.kids[j].removed && !t.kids[j].text && 0 <= t.kids[j].visible)
    ensures Answers(t, index, preferText, Pos([], |Shown(t.kids[..j], false)|))
  {
    hide Sized, MidText, ValidPos, Index, Before, Chosen, Passed;
    MidNone(t, index, j);
    BesidePos(t, j);
    GapChosen(t, j, index, preferText);
  }

  lemma BesidePos(t: Tree, j: int)
    requires !t.text && 0 <= j <= |t.kids|
    ensures var pos := Pos([], |Shown(t.kids[..j], false)|);
            ValidPos(t, pos) && Index(t, pos, false) == Before(t.kids, j, false)
  {
    ShownPrefix(t.kids, j, false);
    hide Shown, Sum;
  }

  /** A position in a child is one in the parent. */
  lemma Descended(t: Tree, k: int, inner: Pos)
    requires 0 <= k < |t.kids| && !t.kids[k].removed && ValidPos(t.kids[k], inner)
    ensures var pos := Pos([k] + inner.path, inner.offset);
            && ValidPos(t, pos)
            && Index(t, pos, false) ==
                 Before(t.kids, k, false) + (if t.kids[k].text then 0 else 1) + Index(t.kids[k], inner, false)
  {
    assert ([k] + inner.path)[1..] == inner.path;
  }

  /** Into a text, when text is preferred. */
  lemma Preferred(t: Tree, k: int, index: int, inner: Pos)
    requires !t.text && 0 <= k < |t.kids| && !t.kids[k].removed && t.kids[k].text
    requires if 0 <= index then Touches(t, k, index) && Passed(t, k, index, true)
             else Before(t.kids, k, false) == 0 && FirstLive(t.kids, 0) >= k
    requires Answers(t.kids[k], index - Before(t.kids, k, false), true, inner)
    ensures Answers(t, index, true, Pos([k] + inner.path, inner.offset))
  {
    hide Before, Passed, FirstLive;
    if 0 <= index {
      TextChosen(t, k, index);
      assert inner == Pos([], index - Before(t.kids, k, false)) && [k] + inner.path == [k];
      hide ValidPos, Index, Chosen;
      Descended(t, k, inner);
    } else {
      LeftmostAt(t, k, index, true);
    }
  }

  /** Into a child past its start. */
  lemma Entered(t: Tree, k: int, index: int, preferText: bool, inner: Pos)
    requires Sized(t) && !t.text && 0 <= k < |t.kids| && !t.kids[k].removed && !(preferText && t.kids[k].text)
    requires 0 <= t.kids[k].visible
    requires if 0 <= index then Encloses(t, k, index) && Passed(t, k, index, preferText)
             else Before(t.kids, k, false) == 0 && FirstLive(t.kids, 0) >= k
    requires Answers(t.kids[k], index - Before(t.kids, k, false) - 1, preferText, inner)
    ensures Answers(t, index, preferText, Pos([k] + inner.path, inner.offset))
  {
    hide Before, Sized, FirstLive, Passed;
    if 0 <= index {
      hide ValidPos, Index, Regained, Chosen;
      Descended(t, k, inner);
      RegainedInside(t, k, index, preferText);
      InnerChosen(t, k, index, preferText, inner);
    } else {
      LeftmostAt(t, k, index, preferText);
    }
  }

  lemma RegainedInside(t: Tree, k: int, index: int, preferText: bool)
    requires Sized(t) && !t.text && 0 <= k < |t.kids| && !t.kids[k].removed && !(preferText && t.kids[k].text)
    requires Before(t.kids, k, false) < index < Before(t.kids, k, false) + Padded(t.kids[k], false)
    ensures Regained(t, index, preferText) ==
              Before(t.kids, k, false) + (if t.kids[k].text then 0 else 1)
              + Regained(t.kids[k], index - Before(t.kids, k, false) - 1, preferText)
  {
    hide Before, Sized, MidText;
    MidHere(t, index, k);
  }

  // ---- And back ---------------------------------------------------------------------------------------

  /** How many of the children before the `k`-th the view shows. */
  method FindOffset(parent: Tree, k: int, all: bool) returns (offset: int)
    requires 0 <= k < |parent.kids|
    ensures offset == |Shown(parent.kids[..k], all)|
  {
    offset := 0;
    for i := 0 to k
      invariant offset == |Shown(parent.kids[..i], all)|
    {
      NextBefore(parent.kids, i, all);
      if all || !parent.kids[i].removed {
        offset := offset + 1;
      }
    }
  }

  /** The size of the first `offset` children that the view shows. */
  method LeftSiblingsSize(parent: Tree, offset: int, all: bool) returns (size: int)
    requires 0 <= offset <= |Shown(parent.kids, all)|
    ensures size == Sum(Shown(parent.kids, all)[..offset], all)
  {
    var children := Shown(parent.kids, all);
    size := 0;
    for i := 0 to offset
      invariant size == Sum(children[..i], all)
    {
      SumNext(children, i, all);
      size := size + Padded(children[i], all);
    }
  }

  lemma SumNext(kids: seq<Tree>, i: int, all: bool)
    requires 0 <= i < |kids|
    ensures Sum(kids[..i + 1], all) == Sum(kids[..i], all) + Padded(kids[i], all)
  {
    assert kids[..i + 1] == kids[..i] + [kids[i]];
    SumSplit(kids[..i], [kids[i]], all);
    assert [kids[i]][1..] == [];
  }

  method SizeBefore(parent: Tree, k: int, all: bool) returns (size: int)
    requires 0 <= k < |parent.kids|
    ensures size == Before(parent.kids, k, all)
  {
    ShownPrefix(parent.kids, k, all);
    var offset := FindOffset(parent, k, all);
    size := LeftSiblingsSize(parent, offset, all);
  }

  /** What climbing from the node at `path` to the root adds. */
  ghost function Above(t: Tree, path: seq<int>, all: bool): (n: int)
    requires Reaches(t, path)
    decreases |path|
  {
    if path == [] then 0 else Before(t.kids, path[0], all) + 1 + Above(t.kids[path[0]], path[1..], all)
  }

  lemma {:induction false} LastStep(t: Tree, path: seq<int>, all: bool)
    requires Reaches(t, path) && path != []
    ensures var up, k := path[..|path| - 1], path[|path| - 1];
            && Reaches(t, up) && 0 <= k < |At(t, up).kids| && At(t, path) == At(t, up).kids[k]
            && Above(t, path, all) == Above(t, up, all) + Before(At(t, up).kids, k, all) + 1
    decreases |path|
  {
    if |path| > 1 {
      var up := path[..|path| - 1];
      assert path[1..][..|path| - 2] == up[1..] && path[1..][|path| - 2] == path[|path| - 1];
      LastStep(t.kids[path[0]], path[1..], all);
    } else {
      assert path[..0] == [] && path[1..] == [];
    }
  }

  /** Only the last node of a path can be text. */
  lemma {:induction false} IndexAbove(t: Tree, pos: Pos, all: bool)
    requires Sized(t) && Anchored(t, pos, all)
    ensures !At(t, pos.path).text ==>
              Index(t, pos, all) == Above(t, pos.path, all) + Sum(Shown(At(t, pos.path).kids, all)[..pos.offset], all)
    ensures At(t, pos.path).text ==>
              Index(t, pos, all) == Above(t, pos.path, all) + pos.offset - if pos.path == [] then 0 else 1
    decreases |pos.path|
  {
    if pos.path != [] {
      var kid := t.kids[pos.path[0]];
      assert Sized(kid);
      hide Before, Shown, Sum;
      IndexAbove(kid, Pos(pos.path[1..], pos.offset), all);
      if kid.text {
        assert kid.kids == [] && pos.path[1..] == [];
      }
    }
  }

  /** The index, in either view, of a position in any node, live or not, summed up from the node to the root. */
  method IndexOf(root: Tree, pos: Pos, all: bool) returns (index: int)
    requires Sized(root) && !root.text && Anchored(root, pos, all)
    ensures index == Index(root, pos, all)
  {
    IndexAbove(root, pos, all);
    hide Sized, Index, Shown, Sum, Before;
    var path, size, depth := pos.path, 0, 1;
    if At(root, path).text {
      LastStep(root, path, all);
      var parent := At(root, path[..|path| - 1]);
      var left := SizeBefore(parent, path[|path| - 1], all);
      size := pos.offset + left;
      path := path[..|path| - 1];
    } else {
      size := LeftSiblingsSize(At(root, path), pos.offset, all);
    }
    while path != []
      invariant Reaches(root, path)
      invariant size + depth - 1 + Above(root, path, all) == Index(root, pos, all)
      decreases |path|
    {
      LastStep(root, path, all);
      var parent := At(root, path[..|path| - 1]);
      var left := SizeBefore(parent, path[|path| - 1], all);
      size := size + left;
      depth := depth + 1;
      path := path[..|path| - 1];
    }
    index := size + depth - 1;
  }

  /** A text of length two: without the preference the position found for its middle has index 0. */
  lemma MiddleSlips(a: int, b: int)
    ensures var root := Tree(a, false, false, 0, 2, 2, [Tree(b, true, false, 2, 2, 2, [])]);
            && Sized(root) && MidText(root, 1) && Answers(root, 1, false, Pos([0], 0))
            && forall p :: Answers(root, 1, false, p) ==> Index(root, p, false) == 0
  {
    var text := Tree(b, true, false, 2, 2, 2, []);
    var root := Tree(a, false, false, 0, 2, 2, [text]);
    OnlyKid(text);
    assert [text][1..] == [] && [text][..0] == [];
    assert Sized(text) && Sized(root);
    assert Before([text], 0, false) == 0;
    assert MidKid(root, 1, 0);
    TextAnswers(text, 0, false);
    Entered(root, 0, 1, false, Pos([], 0));
  }

  /**
   Every index up to the visible length comes back from its position, whatever tombstones there
   are, if text is preferred; if not, exactly the indexes strictly inside text come back one lower.
   */
  method IndexRoundTrip(root: Tree, i: int, preferText: bool) returns (index: int)
    requires Sized(root) && !root.text && 0 <= i <= root.visible
    ensures index == if !preferText && MidText(root, i) then i - 1 else i
  {
    var pos := FindTreePos(root, i, preferText);
    index := IndexOf(root, pos.value, false);
  }
}
