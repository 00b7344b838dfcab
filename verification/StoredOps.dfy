/**
 Decoding operations read back from storage (api/converter). The decoder of the wire is
 strict. Stored operations may predate some of its checks, so they are first repaired where
 a repair exists, and those that lack a time ticket are dropped; the same pass is applied
 before stored operations are forwarded to clients, which decode them strictly.

 Messages are datatypes: an absent message is a constructor of its own, a payload that no
 check of this pass looks into is a number, and bytes decoded by another component are a
 `Blob` that says how that decoding ends.
 */
module StoredOps {
  /** `UndatedAttr` is one of the reasons for an invalid restore span, told apart from the others. */
  datatype Error =
    | MissingTicket | NonFiniteDelta | InvalidSplitLevel | InvalidRestoreSpan | UndatedAttr
    | ContentMissing | Unsupported | Malformed

  datatype Result<+T> = Ok(value: T) | Err(error: Error) {
    predicate IsFailure() {
      Err?
    }

    function PropagateFailure<U>(): (r: Result<U>)
      requires Err?
    {
      Err(error)
    }

    function Extract(): (r: T)
      requires Ok?
    {
      value
    }
  }

  // ---- Messages ----

  /** A time ticket: absent, with an actor that does not decode, or whole. */
  datatype Ticket = Absent | Corrupt | Stamp(id: int)

  datatype Blob = Good(id: int) | Undated | Broken

  /** The element an operation carries; `Double` and `Scalar` are primitives and counters. */
  datatype Element =
    | NoElement
    | UnknownElement
    | Blank(kind: int, created: Ticket)
    | Encoded(blob: Blob)
    | Double(bytes: seq<int>, created: Ticket)
    | Scalar(kind: int, blob: Blob, created: Ticket)

  datatype NodeId = NoId | NodeId(created: Ticket, offset: int)

  datatype TreePos = NoTreePos | TreePos(parent: NodeId, left: NodeId)

  datatype TextPos = NoTextPos | TextPos(created: Ticket, offset: int, relative: int)

  datatype Attr = NoAttr | Attr(text: int, updated: Ticket, removed: bool)

  /** `width` is the length of the span's text in UTF-16 code units. */
  datatype TextSpan = NoTextSpan | TextSpan(created: Ticket, start: int, end: int, width: int, body: int)

  datatype TreeSpan =
    | NoTreeSpan
    | TreeSpan(id: NodeId, isText: bool, length: int, width: int, body: int, attrs: map<int, Attr>,
               parent: NodeId, left: NodeId, right: NodeId)

  /** A content group of `size` nodes, which decode to a tree as `tree` says. */
  datatype Group = NoGroup | Group(size: nat, tree: Blob)

  datatype Mode = NoMode | Restore | Retombstone

  datatype Op =
    | NoOp
    | NoBody
    | UnknownBody
    | Set(parent: Ticket, key: int, elem: Element, executed: Ticket)
    | Add(parent: Ticket, prev: Ticket, elem: Element, executed: Ticket)
    | Move(parent: Ticket, prev: Ticket, created: Ticket, executed: Ticket)
    | Remove(parent: Ticket, created: Ticket, executed: Ticket)
    | Edit(parent: Ticket, textFrom: TextPos, textTo: TextPos, executed: Ticket, textRestore: seq<TextSpan>,
           textRetombstone: seq<TextSpan>, mode: Mode, content: int)
    | Style(parent: Ticket, textFrom: TextPos, textTo: TextPos, executed: Ticket, style: int)
    | Increase(parent: Ticket, elem: Element, executed: Ticket, actor: int)
    | TreeEdit(parent: Ticket, executed: Ticket, from: TreePos, to: TreePos, contents: seq<Group>,
               restore: seq<TreeSpan>, retombstone: seq<TreeSpan>, mode: Mode, level: int, tickets: seq<Ticket>)
    | TreeStyle(parent: Ticket, executed: Ticket, from: TreePos, to: TreePos, style: int)
    | ArraySet(parent: Ticket, created: Ticket, elem: Element, executed: Ticket)

  // ---- What they decode to ----

  datatype Value = Made(kind: int, created: int) | Loaded(id: int) | Number(bytes: seq<int>, created: int)
                 | Plain(kind: int, id: int, created: int)

  datatype Id = Id(created: int, offset: int)

  datatype Pos = Pos(parent: Id, left: Id) | Point(at: Id, relative: int)

  datatype Option<+T> = None | Some(value: T)

  datatype Span =
    | TextRange(created: int, start: int, end: int, body: int)
    | TreeRange(id: Id, isText: bool, length: int, body: int, attrs: map<int, Attr>,
                parent: Option<Id>, left: Option<Id>, right: Option<Id>)

  datatype Model =
    | SetOp(parent: int, key: int, elem: Value, executed: int)
    | AddOp(parent: int, prev: int, elem: Value, executed: int)
    | MoveOp(parent: int, prev: int, created: int, executed: int)
    | RemoveOp(parent: int, created: int, executed: int)
    | EditOp(parent: int, from: Pos, to: Pos, content: int, executed: int)
    | StyleOp(parent: int, from: Pos, to: Pos, style: int, executed: int)
    | IncreaseOp(parent: int, elem: Value, executed: int, actor: int)
    | RestoreOp(tree: bool, parent: int, from: Pos, to: Pos, executed: int, restore: seq<Span>, mode: Mode,
                retombstone: seq<Span>)
    | TreeEditOp(parent: int, from: Pos, to: Pos, contents: seq<int>, level: int, executed: int, tickets: seq<int>)
    | TreeStyleOp(parent: int, from: Pos, to: Pos, style: int, executed: int)
    | ArraySetOp(parent: int, created: int, elem: Value, executed: int)

  // ---- The strict decoder ----

  /** Decodes a list element by element; the first failure is the failure of the list. */
  function Each<A, B>(f: A -> Result<B>, s: seq<A>): (r: Result<seq<B>>) {
    if s == [] then Ok([])
    else
      var x :- f(s[0]);
      var rest :- Each(f, s[1..]);
      Ok([x] + rest)
  }

  function Required(t: Ticket): (r: Result<int>) {
    match t
    case Absent => Err(MissingTicket)
    case Corrupt => Err(Malformed)
    case Stamp(id) => Ok(id)
  }

  function Read(b: Blob): (r: Result<int>) {
    match b
    case Good(id) => Ok(id)
    case Undated => Err(MissingTicket)
    case Broken => Err(Malformed)
  }

  /** Eight bytes, least significant first, hold NaN or an infinity when every exponent bit is set. */
  predicate NonFinite(bytes: seq<int>) {
    |bytes| >= 8 && bytes[7] % 128 == 127 && bytes[6] / 16 == 15
  }

  function FromElement(e: Element): (r: Result<Value>) {
    match e
    case NoElement => Err(Unsupported)
    case UnknownElement => Err(Unsupported)
    case Blank(kind, t) =>
      var created :- Required(t);
      Ok(Made(kind, created))
    case Encoded(blob) =>
      var id :- Read(blob);
      Ok(Loaded(id))
    case Double(bytes, t) =>
      var created :- Required(t);
      if |bytes| < 8 then Err(Malformed) else Ok(Number(bytes[..8], created))
    case Scalar(kind, blob, t) =>
      var created :- Required(t);
      if blob.Good? then Ok(Plain(kind, blob.id, created)) else Err(Malformed)
  }

  function FromNodeId(n: NodeId): (r: Result<Id>) {
    match n
    case NoId => Err(Malformed)
    case NodeId(t, offset) =>
      var created :- Required(t);
      Ok(Id(created, offset))
  }

  function FromAnchor(n: NodeId): (r: Result<Id>) {
    var id :- FromNodeId(n);
    Ok(if id.offset < 0 then Id(id.created, 0) else id)
  }

  function FromTreePos(p: TreePos): (r: Result<Pos>) {
    match p
    case NoTreePos => Err(Malformed)
    case TreePos(p, l) =>
      var parent :- FromNodeId(p);
      var left :- FromNodeId(l);
      Ok(Pos(parent, left))
  }

  function FromTextPos(p: TextPos): (r: Result<Pos>) {
    match p
    case NoTextPos => Err(Malformed)
    case TextPos(t, offset, relative) =>
      var created :- Required(t);
      Ok(Point(Id(created, offset), relative))
  }

  /** A span's own ticket is checked apart: its absence makes the span invalid, not the operation undated. */
  function FromTextSpan(s: TextSpan): (r: Result<Span>) {
    match s
    case NoTextSpan => Err(InvalidRestoreSpan)
    case TextSpan(t, start, end, width, body) =>
      if start < 0 || end < start || end - start != width then Err(InvalidRestoreSpan)
      else if t.Absent? then Err(InvalidRestoreSpan)
      else
        var created :- Required(t);
        Ok(TextRange(created, start, end, body))
  }

  predicate Dated(a: Attr) {
    a.Attr? && !a.updated.Absent?
  }

  function FromAttrs(attrs: map<int, Attr>): (r: Result<map<int, Attr>>) {
    if exists k :: k in attrs && !Dated(attrs[k]) then Err(UndatedAttr)
    else if exists k :: k in attrs && attrs[k].updated.Corrupt? then Err(Malformed)
    else Ok(attrs)
  }

  /** An id that may be left out. */
  function Optionally(n: NodeId, f: NodeId -> Result<Id>): (r: Result<Option<Id>>) {
    if n.NoId? then Ok(None)
    else
      var id :- f(n);
      Ok(Some(id))
  }

  function FromTreeSpan(s: TreeSpan): (r: Result<Span>) {
    match s
    case NoTreeSpan => Err(InvalidRestoreSpan)
    case TreeSpan(i, isText, length, width, body, marks, p, l, r) =>
      if i.NoId? then Err(InvalidRestoreSpan)
      else
        var id :- FromNodeId(i);
        if length < 0 || (isText && length != width) then Err(InvalidRestoreSpan)
        else
          var attrs :- FromAttrs(marks);
          var parent :- Optionally(p, FromNodeId);
          var left :- Optionally(l, FromAnchor);
          var right :- Optionally(r, FromNodeId);
          Ok(TreeRange(id, isText, length, body, attrs, parent, left, right))
  }

  function FromGroup(g: Group): (r: Result<int>) {
    if g.NoGroup? || g.size == 0 then Err(ContentMissing) else Read(g.tree)
  }

  function FromIncrease(op: Op): (r: Result<Model>)
    requires op.Increase?
  {
    var parent :- Required(op.parent);
    var elem :- FromElement(op.elem);
    if elem.Number? && NonFinite(elem.bytes) then Err(NonFiniteDelta)
    else
      var executed :- Required(op.executed);
      Ok(IncreaseOp(parent, elem, executed, op.actor))
  }

  function FromEdit(op: Op): (r: Result<Model>)
    requires op.Edit?
  {
    var parent :- Required(op.parent);
    var from :- FromTextPos(op.textFrom);
    var to :- FromTextPos(op.textTo);
    var executed :- Required(op.executed);
    var restore :- Each(FromTextSpan, op.textRestore);
    var retombstone :- Each(FromTextSpan, op.textRetombstone);
    if (op.mode != NoMode) != (restore != [] || retombstone != []) then Err(InvalidRestoreSpan)
    else if op.mode != NoMode then Ok(RestoreOp(false, parent, from, to, executed, restore, op.mode, retombstone))
    else Ok(EditOp(parent, from, to, op.content, executed))
  }

  /** The part of a tree edit that only an edit that restores nothing is asked for. */
  function FromOrdinary(op: Op, parent: int, executed: int, from: Pos, to: Pos, contents: seq<int>): (r: Result<Model>)
    requires op.TreeEdit?
  {
    if op.level < 0 then Err(InvalidSplitLevel)
    else
      var tickets :- Each(Required, op.tickets);
      Ok(TreeEditOp(parent, from, to, contents, op.level, executed, tickets))
  }

  function FromTreeEdit(op: Op): (r: Result<Model>)
    requires op.TreeEdit?
  {
    var parent :- Required(op.parent);
    var executed :- Required(op.executed);
    var from :- FromTreePos(op.from);
    var to :- FromTreePos(op.to);
    var contents :- Each(FromGroup, op.contents);
    var restore :- Each(FromTreeSpan, op.restore);
    var retombstone :- Each(FromTreeSpan, op.retombstone);
    if (op.mode != NoMode) != (restore != [] || retombstone != []) then Err(InvalidRestoreSpan)
    else if op.mode != NoMode then Ok(RestoreOp(true, parent, from, to, executed, restore, op.mode, retombstone))
    else FromOrdinary(op, parent, executed, from, to, contents)
  }

  function FromOperation(op: Op): (r: Result<Model>) {
    match op
    case NoOp => Err(Malformed)
    case NoBody => Err(Malformed)
    case UnknownBody => Err(Unsupported)
    case Set(p, key, e, x) =>
      var parent :- Required(p);
      var executed :- Required(x);
      var elem :- FromElement(e);
      Ok(SetOp(parent, key, elem, executed))
    case Add(p, v, e, x) =>
      var parent :- Required(p);
      var prev :- Required(v);
      var elem :- FromElement(e);
      var executed :- Required(x);
      Ok(AddOp(parent, prev, elem, executed))
    case Move(p, v, c, x) =>
      var parent :- Required(p);
      var prev :- Required(v);
      var created :- Required(c);
      var executed :- Required(x);
      Ok(MoveOp(parent, prev, created, executed))
    case Remove(p, c, x) =>
      var parent :- Required(p);
      var created :- Required(c);
      var executed :- Required(x);
      Ok(RemoveOp(parent, created, executed))
    case Edit(_, _, _, _, _, _, _, _) => FromEdit(op)
    case Style(p, f, t, x, style) =>
      var parent :- Required(p);
      var from :- FromTextPos(f);
      var to :- FromTextPos(t);
      var executed :- Required(x);
      Ok(StyleOp(parent, from, to, style, executed))
    case Increase(_, _, _, _) => FromIncrease(op)
    case TreeEdit(_, _, _, _, _, _, _, _, _, _) => FromTreeEdit(op)
    case TreeStyle(p, x, f, t, style) =>
      var parent :- Required(p);
      var executed :- Required(x);
      var from :- FromTreePos(f);
      var to :- FromTreePos(t);
      Ok(TreeStyleOp(parent, from, to, style, executed))
    case ArraySet(p, c, e, x) =>
      var parent :- Required(p);
      var created :- Required(c);
      var elem :- FromElement(e);
      var executed :- Required(x);
      Ok(ArraySetOp(parent, created, elem, executed))
  }

  function Strict(ops: seq<Op>): (r: Result<seq<Model>>) {
    Each(FromOperation, ops)
  }

  // ---- The repairs ----

  const ZERO := [0, 0, 0, 0, 0, 0, 0, 0]

  function FiniteElement(e: Element): (r: Element) {
    if e.Double? && NonFinite(e.bytes) then e.(bytes := ZERO) else e
  }

  function Keep<A>(p: A -> bool, s: seq<A>): (r: seq<A>) {
    if s == [] then [] else (if p(s[0]) then [s[0]] else []) + Keep(p, s[1..])
  }

  predicate Filled(g: Group) {
    g.Group? && g.size > 0
  }

  predicate HasAbsent(tickets: seq<Ticket>) {
    exists i :: 0 <= i < |tickets| && tickets[i].Absent?
  }

  function DatedAttrs(attrs: map<int, Attr>): (r: map<int, Attr>) {
    map k | k in attrs && Dated(attrs[k]) :: attrs[k]
  }

  function DatedSpan(s: TreeSpan): (r: TreeSpan) {
    if s.NoTreeSpan? then s else s.(attrs := DatedAttrs(s.attrs))
  }

  function Map<A, B>(f: A -> B, s: seq<A>): (r: seq<B>)
    ensures |r| == |s| && forall i :: 0 <= i < |s| ==> r[i] == f(s[i])
  {
    if s == [] then [] else [f(s[0])] + Map(f, s[1..])
  }

  function Level(level: int): (r: int) {
    if level < 0 then 0 else level
  }

  function WholeTickets(tickets: seq<Ticket>): (r: seq<Ticket>) {
    if HasAbsent(tickets) then [] else tickets
  }

  function Normal(op: Op): (r: Op) {
    match op
    case Increase(parent, elem, executed, actor) => Increase(parent, FiniteElement(elem), executed, actor)
    case TreeEdit(parent, executed, from, to, contents, restore, retombstone, mode, level, tickets) =>
      TreeEdit(parent, executed, from, to, Keep(Filled, contents), Map(DatedSpan, restore),
               Map(DatedSpan, retombstone), mode, Level(level), WholeTickets(tickets))
    case _ => op
  }

  /** Whether an operation decodes, or fails for another reason than a missing ticket. */
  predicate Datable(op: Op) {
    FromOperation(op) != Err(MissingTicket)
  }

  function Sanitized(ops: seq<Op>): (r: seq<Op>) {
    var repaired := Map(Normal, ops);
    if Strict(repaired) == Err(MissingTicket) then Keep(Datable, repaired) else repaired
  }

  function Stored(ops: seq<Op>): (r: Result<seq<Model>>) {
    var repaired := Map(Normal, ops);
    var first := Strict(repaired);
    if first == Err(MissingTicket) then Strict(Keep(Datable, repaired)) else first
  }

  // ---- Lists ----

  lemma {:induction false} EachOk<A, B>(f: A -> Result<B>, s: seq<A>, i: nat)
    requires Each(f, s).Ok? && i < |s|
    ensures f(s[i]).Ok? && |Each(f, s).value| == |s| && Each(f, s).value[i] == f(s[i]).value
    decreases |s|
  {
    if i > 0 {
      EachOk(f, s[1..], i - 1);
    } else if |s| > 1 {
      EachOk(f, s[1..], 0);
    }
  }

  lemma {:induction false} EachErr<A, B>(f: A -> Result<B>, s: seq<A>) returns (i: nat)
    requires Each(f, s).Err?
    ensures i < |s| && f(s[i]).Err? && f(s[i]).error == Each(f, s).error
    decreases |s|
  {
    if f(s[0]).Err? {
      i := 0;
    } else {
      i := EachErr(f, s[1..]);
      i := i + 1;
    }
  }

  lemma {:induction false} KeepAll<A>(p: A -> bool, s: seq<A>)
    requires forall i :: 0 <= i < |s| ==> p(s[i])
    ensures Keep(p, s) == s
  {
    if s != [] {
      assert forall i :: 0 <= i < |s[1..]| ==> p(s[1..][i]);
      KeepAll(p, s[1..]);
    }
  }

  lemma {:induction false} KeepAt<A>(p: A -> bool, s: seq<A>, i: nat) returns (j: nat)
    requires i < |Keep(p, s)|
    ensures j < |s| && Keep(p, s)[i] == s[j] && p(s[j])
  {
    if p(s[0]) && i == 0 {
      j := 0;
    } else {
      j := KeepAt(p, s[1..], if p(s[0]) then i - 1 else i);
      j := j + 1;
    }
  }

  lemma MapSame<A>(f: A -> A, s: seq<A>)
    requires forall i :: 0 <= i < |s| ==> f(s[i]) == s[i]
    ensures Map(f, s) == s
  {
  }

  /** The first list is what is left of the second after some of its elements are taken out. */
  ghost predicate Subsequence<A>(a: seq<A>, b: seq<A>)
    decreases |b|
  {
    a == [] || (b != [] && (if a[0] == b[0] then Subsequence(a[1..], b[1..]) else Subsequence(a, b[1..])))
  }

  lemma {:induction false} SubsequenceSelf<A>(s: seq<A>)
    ensures Subsequence(s, s)
    decreases |s|
  {
    if s != [] {
      SubsequenceSelf(s[1..]);
    }
  }

  /** Taking the first match is enough: a list whose tail fits fits as well. */
  lemma {:induction false} SubsequenceSkip<A>(a: seq<A>, b: seq<A>, x: A)
    requires Subsequence(a, b)
    ensures Subsequence(a, [x] + b)
    decreases |b|, 1
  {
    assert ([x] + b)[1..] == b;
    if a != [] && a[0] == x {
      SubsequenceTail(a, b);
    }
  }

  lemma {:induction false} SubsequenceTail<A>(a: seq<A>, b: seq<A>)
    requires a != [] && Subsequence(a, b)
    ensures Subsequence(a[1..], b)
    decreases |b|, 0
  {
    if a[0] == b[0] {
      assert b == [b[0]] + b[1..];
      SubsequenceSkip(a[1..], b[1..], b[0]);
    } else {
      SubsequenceTail(a, b[1..]);
      assert b == [b[0]] + b[1..];
      SubsequenceSkip(a[1..], b[1..], b[0]);
    }
  }

  lemma {:induction false} KeepSubsequence<A>(p: A -> bool, s: seq<A>)
    ensures Subsequence(Keep(p, s), s)
  {
    if s != [] {
      KeepSubsequence(p, s[1..]);
      if p(s[0]) {
        assert Keep(p, s)[1..] == Keep(p, s[1..]);
      } else {
        assert Keep(p, s) == Keep(p, s[1..]) && s == [s[0]] + s[1..];
        SubsequenceSkip(Keep(p, s[1..]), s[1..], s[0]);
      }
    }
  }

  // ---- What the drop pass does to strict decoding ----

  lemma {:induction false} KeepDecodes(ops: seq<Op>)
    ensures Strict(Keep(Datable, ops)) != Err(MissingTicket)
    ensures Strict(ops) == Err(MissingTicket) || Strict(ops) == Strict(Keep(Datable, ops))
  {
    hide FromOperation;
    if ops != [] {
      KeepDecodes(ops[1..]);
      if Datable(ops[0]) {
        assert Keep(Datable, ops)[0] == ops[0] && Keep(Datable, ops)[1..] == Keep(Datable, ops[1..]);
      } else {
        assert Keep(Datable, ops) == Keep(Datable, ops[1..]);
      }
    }
  }

  /** The two passes with their shortcut come to repairing, dropping and decoding, always in this order. */
  lemma StoredIsFiltered(ops: seq<Op>)
    ensures Stored(ops) == Strict(Keep(Datable, Map(Normal, ops)))
  {
    KeepDecodes(Map(Normal, ops));
  }

  /** What a client decodes from the sanitized operations is what the server decodes from the stored ones. */
  lemma SanitizedAgrees(ops: seq<Op>)
    ensures Strict(Sanitized(ops)) == Stored(ops)
  {
  }

  /** Stored operations never fail to decode for a missing ticket. */
  lemma NeverMissing(ops: seq<Op>)
    ensures Stored(ops) != Err(MissingTicket)
  {
    KeepDecodes(Map(Normal, ops));
  }

  /** Sanitizing keeps the repaired operations in order, each kept or dropped, and drops none that has its tickets. */
  lemma SanitizedSubsequence(ops: seq<Op>)
    ensures Subsequence(Sanitized(ops), Map(Normal, ops))
    ensures Subsequence(Keep(Datable, Map(Normal, ops)), Sanitized(ops))
  {
    SubsequenceSelf(Sanitized(ops));
    KeepSubsequence(Datable, Map(Normal, ops));
  }

  lemma {:induction false} KeepFailsAt(ops: seq<Op>)
    ensures Strict(Keep(Datable, ops)).Ok? <==>
      forall i :: 0 <= i < |ops| ==> FromOperation(ops[i]).Ok? || FromOperation(ops[i]) == Err(MissingTicket)
  {
    hide FromOperation;
    if ops != [] {
      var rest := ops[1..];
      KeepFailsAt(rest);
      assert forall i :: 0 <= i < |rest| ==> rest[i] == ops[i + 1];
      assert forall i :: 0 < i < |ops| ==> ops[i] == rest[i - 1];
      if Datable(ops[0]) {
        assert Keep(Datable, ops)[0] == ops[0] && Keep(Datable, ops)[1..] == Keep(Datable, rest);
      } else {
        assert Keep(Datable, ops) == Keep(Datable, rest);
      }
    }
  }

  /** A stored list loads exactly when no repaired operation fails for another reason than a missing ticket. */
  lemma LoadsIff(ops: seq<Op>)
    ensures Stored(ops).Ok? <==>
      forall i :: 0 <= i < |ops| ==>
        FromOperation(Normal(ops[i])).Ok? || FromOperation(Normal(ops[i])) == Err(MissingTicket)
  {
    StoredIsFiltered(ops);
    KeepFailsAt(Map(Normal, ops));
    hide FromOperation, Normal, Strict, Stored;
    assert forall i :: 0 <= i < |ops| ==> Map(Normal, ops)[i] == Normal(ops[i]);
  }

  // ---- What the repairs do ----

  lemma FiniteElementSame(e: Element)
    ensures !(FiniteElement(e).Double? && NonFinite(FiniteElement(e).bytes))
    ensures !(e.Double? && NonFinite(e.bytes)) ==> FiniteElement(e) == e
  {
  }

  lemma DatedSpanSame(s: TreeSpan)
    requires FromTreeSpan(s).Ok?
    ensures DatedSpan(s) == s
  {
    assert FromAttrs(s.attrs).Ok?;
    assert forall k :: k in s.attrs ==> Dated(s.attrs[k]);
    assert DatedAttrs(s.attrs) == s.attrs;
  }

  lemma SpansSame(spans: seq<TreeSpan>)
    requires Each(FromTreeSpan, spans).Ok?
    ensures Map(DatedSpan, spans) == spans
  {
    forall i | 0 <= i < |spans|
      ensures DatedSpan(spans[i]) == spans[i]
    {
      EachOk(FromTreeSpan, spans, i);
      DatedSpanSame(spans[i]);
    }
  }

  lemma ContentsSame(groups: seq<Group>)
    requires Each(FromGroup, groups).Ok?
    ensures Keep(Filled, groups) == groups
  {
    forall i | 0 <= i < |groups|
      ensures Filled(groups[i])
    {
      EachOk(FromGroup, groups, i);
    }
    KeepAll(Filled, groups);
  }

  lemma TicketsSame(tickets: seq<Ticket>)
    requires Each(Required, tickets).Ok?
    ensures WholeTickets(tickets) == tickets
  {
    forall i | 0 <= i < |tickets|
      ensures !tickets[i].Absent?
    {
      EachOk(Required, tickets, i);
    }
  }

  lemma IncreasePreserved(op: Op)
    requires op.Increase? && FromIncrease(op).Ok?
    ensures Normal(op) == op
  {
    if op.elem.Double? {
      assert op.elem.bytes[..8][7] == op.elem.bytes[7] && op.elem.bytes[..8][6] == op.elem.bytes[6];
    }
    FiniteElementSame(op.elem);
  }

  /** An ordinary tree edit that decodes needs no repair; one that restores keeps what its decoding reads. */
  lemma TreeEditPreserved(op: Op)
    requires op.TreeEdit? && FromTreeEdit(op).Ok?
    ensures FromTreeEdit(Normal(op)) == FromTreeEdit(op)
  {
    hide FromTreePos, FromTreeSpan, FromGroup, Required, DatedSpan, Filled, HasAbsent, WholeTickets;
    assert Each(FromGroup, op.contents).Ok? && Each(FromTreeSpan, op.restore).Ok?;
    assert Each(FromTreeSpan, op.retombstone).Ok?;
    ContentsSame(op.contents);
    SpansSame(op.restore);
    SpansSame(op.retombstone);
    if op.mode == NoMode {
      assert Each(Required, op.tickets).Ok? && op.level >= 0;
      TicketsSame(op.tickets);
    }
  }

  /** Repairing changes the meaning of no operation that decodes without repair. */
  lemma RepairPreserves(op: Op)
    requires FromOperation(op).Ok?
    ensures FromOperation(Normal(op)) == FromOperation(op)
  {
    hide FromTreeEdit, FromIncrease;
    if op.Increase? {
      IncreasePreserved(op);
    } else if op.TreeEdit? {
      TreeEditPreserved(op);
    }
  }

  /** A list of operations that decodes strictly is loaded from storage unchanged, and forwarded in the same meaning. */
  lemma {:induction false} WellFormedUnchanged(ops: seq<Op>)
    requires Strict(ops).Ok?
    ensures Stored(ops) == Strict(ops) && Strict(Sanitized(ops)) == Strict(ops)
    ensures |Sanitized(ops)| == |ops|
    decreases |ops|
  {
    hide FromOperation, Normal;
    if ops != [] {
      RepairPreserves(ops[0]);
      WellFormedUnchanged(ops[1..]);
      assert Map(Normal, ops)[1..] == Map(Normal, ops[1..]);
    }
  }

  // ---- The rejections that repair removes ----

  predicate Repaired(e: Error) {
    e == NonFiniteDelta || e == InvalidSplitLevel || e == ContentMissing || e == UndatedAttr
  }

  lemma GroupsFilled(groups: seq<Group>)
    ensures !(Each(FromGroup, Keep(Filled, groups)).Err? && Repaired(Each(FromGroup, Keep(Filled, groups)).error))
  {
    if Each(FromGroup, Keep(Filled, groups)).Err? {
      var i := EachErr(FromGroup, Keep(Filled, groups));
      var _ := KeepAt(Filled, groups, i);
    }
  }

  /** Exactly the attributes without a ticket go. */
  lemma AttrsDated(attrs: map<int, Attr>)
    ensures FromAttrs(DatedAttrs(attrs)) != Err(UndatedAttr)
    ensures forall k :: k in DatedAttrs(attrs) <==> k in attrs && attrs[k].Attr? && attrs[k].updated != Absent
    ensures forall k :: k in DatedAttrs(attrs) ==> DatedAttrs(attrs)[k] == attrs[k]
  {
  }

  lemma SpanDated(s: TreeSpan)
    ensures FromTreeSpan(DatedSpan(s)).Err? ==> !Repaired(FromTreeSpan(DatedSpan(s)).error)
  {
    if s.TreeSpan? {
      hide DatedAttrs, FromAttrs;
      AttrsDated(s.attrs);
      AttrsFail(DatedAttrs(s.attrs));
    }
  }

  lemma AttrsFail(attrs: map<int, Attr>)
    ensures FromAttrs(attrs).Err? ==> FromAttrs(attrs).error == UndatedAttr || FromAttrs(attrs).error == Malformed
  {
  }

  lemma SpansDated(spans: seq<TreeSpan>)
    ensures
      var r := Each(FromTreeSpan, Map(DatedSpan, spans));
      !(r.Err? && Repaired(r.error))
  {
    hide FromTreeSpan, DatedSpan, Repaired;
    var fixed := Map(DatedSpan, spans);
    if Each(FromTreeSpan, fixed).Err? {
      var i := EachErr(FromTreeSpan, fixed);
      SpanDated(spans[i]);
    }
  }

  lemma TextSpansUnrepaired(spans: seq<TextSpan>)
    ensures !(Each(FromTextSpan, spans).Err? && Repaired(Each(FromTextSpan, spans).error))
  {
    if Each(FromTextSpan, spans).Err? {
      var i := EachErr(FromTextSpan, spans);
    }
  }

  lemma TicketsUnrepaired(tickets: seq<Ticket>)
    ensures !(Each(Required, tickets).Err? && Repaired(Each(Required, tickets).error))
  {
    if Each(Required, tickets).Err? {
      var i := EachErr(Required, tickets);
    }
  }

  lemma TreeEditRepaired(op: Op)
    requires op.TreeEdit?
    ensures FromTreeEdit(Normal(op)).Err? ==> !Repaired(FromTreeEdit(Normal(op)).error)
  {
    hide Each, FromTreeSpan, FromGroup, DatedSpan, Filled, WholeTickets;
    var fixed := Normal(op);
    GroupsFilled(op.contents);
    SpansDated(op.restore);
    SpansDated(op.retombstone);
    TicketsUnrepaired(fixed.tickets);
  }

  lemma IncreaseRepaired(op: Op)
    requires op.Increase?
    ensures FromIncrease(Normal(op)).Err? ==> !Repaired(FromIncrease(Normal(op)).error)
  {
    var e := Normal(op).elem;
    FiniteElementSame(op.elem);
    if e.Double? && |e.bytes| >= 8 {
      assert e.bytes[..8][7] == e.bytes[7] && e.bytes[..8][6] == e.bytes[6];
    }
  }

  /** A repaired operation is never rejected for what the repair is there to remove. */
  lemma RepairHolds(op: Op)
    ensures FromOperation(Normal(op)).Err? ==> !Repaired(FromOperation(Normal(op)).error)
  {
    hide FromTreeEdit, FromIncrease, Each;
    match op {
      case Increase(_, _, _, _) => IncreaseRepaired(op);
      case TreeEdit(_, _, _, _, _, _, _, _, _, _) => TreeEditRepaired(op);
      case Edit(_, _, _, _, _, _, _, _) =>
        TextSpansUnrepaired(op.textRestore);
        TextSpansUnrepaired(op.textRetombstone);
      case _ =>
    }
  }

  /** So no stored list fails for it either. */
  lemma StoredNeverRejects(ops: seq<Op>)
    ensures Stored(ops).Err? ==> !Repaired(Stored(ops).error) && Stored(ops).error != MissingTicket
  {
    NeverMissing(ops);
    StoredIsFiltered(ops);
    if Stored(ops).Err? {
      var fixed := Map(Normal, ops);
      var i := EachErr(FromOperation, Keep(Datable, fixed));
      var j := KeepAt(Datable, fixed, i);
      RepairHolds(ops[j]);
    }
  }

  // ---- Sanitizing twice ----

  lemma NormalTwice(op: Op)
    ensures Normal(Normal(op)) == Normal(op)
  {
    match op {
      case Increase(_, _, _, _) => FiniteElementSame(op.elem); FiniteElementSame(FiniteElement(op.elem));
      case TreeEdit(_, _, _, _, contents, restore, retombstone, _, _, tickets) =>
        KeepTwice(Filled, contents);
        SpansTwice(restore);
        SpansTwice(retombstone);
      case _ =>
    }
  }

  lemma {:induction false} KeepTwice<A>(p: A -> bool, s: seq<A>)
    ensures Keep(p, Keep(p, s)) == Keep(p, s)
  {
    if s != [] {
      KeepTwice(p, s[1..]);
      if p(s[0]) {
        assert Keep(p, s)[1..] == Keep(p, s[1..]);
      } else {
        assert Keep(p, s) == Keep(p, s[1..]);
      }
    }
  }

  lemma SpansTwice(spans: seq<TreeSpan>)
    ensures Map(DatedSpan, Map(DatedSpan, spans)) == Map(DatedSpan, spans)
  {
    forall i | 0 <= i < |spans|
      ensures DatedSpan(DatedSpan(spans[i])) == DatedSpan(spans[i])
    {
      if spans[i].TreeSpan? {
        assert DatedAttrs(DatedAttrs(spans[i].attrs)) == DatedAttrs(spans[i].attrs);
      }
    }
  }

  lemma RepairedAll(ops: seq<Op>, i: nat)
    requires i < |Sanitized(ops)|
    ensures Normal(Sanitized(ops)[i]) == Sanitized(ops)[i]
  {
    var fixed := Map(Normal, ops);
    if Strict(fixed) == Err(MissingTicket) {
      var j := KeepAt(Datable, fixed, i);
      NormalTwice(ops[j]);
    } else {
      NormalTwice(ops[i]);
    }
  }

  /** Sanitizing what is sanitized changes nothing. */
  lemma SanitizedTwice(ops: seq<Op>)
    ensures Sanitized(Sanitized(ops)) == Sanitized(ops)
  {
    var once := Sanitized(ops);
    forall i | 0 <= i < |once|
      ensures Normal(once[i]) == once[i]
    {
      RepairedAll(ops, i);
    }
    MapSame(Normal, once);
    SanitizedAgrees(ops);
    NeverMissing(ops);
  }

  // ---- Writing operations ----

  function ToElement(v: Value): (r: Element) {
    match v
    case Made(kind, created) => Blank(kind, Stamp(created))
    case Loaded(id) => Encoded(Good(id))
    case Number(bytes, created) => Double(bytes, Stamp(created))
    case Plain(kind, id, created) => Scalar(kind, Good(id), Stamp(created))
  }

  function ToNodeId(id: Id): (r: NodeId) {
    NodeId(Stamp(id.created), id.offset)
  }

  function ToTreePos(p: Pos): (r: TreePos) {
    if p.Pos? then TreePos(ToNodeId(p.parent), ToNodeId(p.left)) else NoTreePos
  }

  function ToTextPos(p: Pos): (r: TextPos) {
    if p.Point? then TextPos(Stamp(p.at.created), p.at.offset, p.relative) else NoTextPos
  }

  function ToTextSpan(s: Span): (r: TextSpan) {
    if s.TextRange? then TextSpan(Stamp(s.created), s.start, s.end, s.end - s.start, s.body) else NoTextSpan
  }

  function ToOptionalId(id: Option<Id>): (r: NodeId) {
    if id.Some? then ToNodeId(id.value) else NoId
  }

  function ToTreeSpan(s: Span): (r: TreeSpan) {
    if s.TextRange? then NoTreeSpan
    else
      TreeSpan(ToNodeId(s.id), s.isText, s.length, s.length, s.body, s.attrs,
               ToOptionalId(s.parent), ToOptionalId(s.left), ToOptionalId(s.right))
  }

  function ToGroup(id: int): (r: Group) {
    Group(1, Good(id))
  }

  function ToTicket(id: int): (r: Ticket) {
    Stamp(id)
  }

  /** The message an operation is written as. */
  function ToOperation(m: Model): (r: Op) {
    match m
    case SetOp(parent, key, elem, executed) => Set(Stamp(parent), key, ToElement(elem), Stamp(executed))
    case AddOp(parent, prev, elem, executed) => Add(Stamp(parent), Stamp(prev), ToElement(elem), Stamp(executed))
    case MoveOp(parent, prev, created, executed) => Move(Stamp(parent), Stamp(prev), Stamp(created), Stamp(executed))
    case RemoveOp(parent, created, executed) => Remove(Stamp(parent), Stamp(created), Stamp(executed))
    case EditOp(parent, from, to, content, executed) =>
      Edit(Stamp(parent), ToTextPos(from), ToTextPos(to), Stamp(executed), [], [], NoMode, content)
    case StyleOp(parent, from, to, style, executed) =>
      Style(Stamp(parent), ToTextPos(from), ToTextPos(to), Stamp(executed), style)
    case IncreaseOp(parent, elem, executed, actor) => Increase(Stamp(parent), ToElement(elem), Stamp(executed), actor)
    case RestoreOp(tree, parent, from, to, executed, restore, mode, retombstone) =>
      if tree then
        TreeEdit(Stamp(parent), Stamp(executed), ToTreePos(from), ToTreePos(to), [], Map(ToTreeSpan, restore),
                 Map(ToTreeSpan, retombstone), mode, 0, [])
      else
        Edit(Stamp(parent), ToTextPos(from), ToTextPos(to), Stamp(executed), Map(ToTextSpan, restore),
             Map(ToTextSpan, retombstone), mode, 0)
    case TreeEditOp(parent, from, to, contents, level, executed, tickets) =>
      TreeEdit(Stamp(parent), Stamp(executed), ToTreePos(from), ToTreePos(to), Map(ToGroup, contents), [], [], NoMode,
               level, Map(ToTicket, tickets))
    case TreeStyleOp(parent, from, to, style, executed) =>
      TreeStyle(Stamp(parent), Stamp(executed), ToTreePos(from), ToTreePos(to), style)
    case ArraySetOp(parent, created, elem, executed) =>
      ArraySet(Stamp(parent), Stamp(created), ToElement(elem), Stamp(executed))
  }

  /** What a decoded operation is like: texts and trees do not mix, ranges are ranges, attributes are dated. */
  predicate FitValue(v: Value) {
    v.Number? ==> |v.bytes| == 8
  }

  predicate FitSpan(s: Span, tree: bool) {
    match s
    case TextRange(_, start, end, _) => !tree && 0 <= start <= end
    case TreeRange(_, _, length, _, attrs, _, left, _) =>
      && tree && 0 <= length && (left.Some? ==> 0 <= left.value.offset)
      && forall k :: k in attrs ==> Dated(attrs[k]) && !attrs[k].updated.Corrupt?
  }

  predicate FitSpans(spans: seq<Span>, tree: bool) {
    forall i :: 0 <= i < |spans| ==> FitSpan(spans[i], tree)
  }

  predicate FitModel(m: Model) {
    match m
    case SetOp(_, _, elem, _) => FitValue(elem)
    case AddOp(_, _, elem, _) => FitValue(elem)
    case MoveOp(_, _, _, _) => true
    case RemoveOp(_, _, _) => true
    case EditOp(_, from, to, _, _) => from.Point? && to.Point?
    case StyleOp(_, from, to, _, _) => from.Point? && to.Point?
    case IncreaseOp(_, elem, _, _) => FitValue(elem) && !(elem.Number? && NonFinite(elem.bytes))
    case RestoreOp(tree, _, from, to, _, restore, mode, retombstone) =>
      && from.Pos? == to.Pos? == tree && mode != NoMode && (restore != [] || retombstone != [])
      && FitSpans(restore, tree) && FitSpans(retombstone, tree)
    case TreeEditOp(_, from, to, _, level, _, _) => from.Pos? && to.Pos? && 0 <= level
    case TreeStyleOp(_, from, to, _, _) => from.Pos? && to.Pos?
    case ArraySetOp(_, _, elem, _) => FitValue(elem)
  }

  lemma {:induction false} EachBack<A, B>(f: A -> Result<B>, g: B -> A, s: seq<B>)
    requires forall i :: 0 <= i < |s| ==> f(g(s[i])) == Ok(s[i])
    ensures Each(f, Map(g, s)) == Ok(s)
  {
    if s != [] {
      assert forall i :: 0 <= i < |s[1..]| ==> s[1..][i] == s[i + 1];
      EachBack(f, g, s[1..]);
      assert Map(g, s)[1..] == Map(g, s[1..]) && [s[0]] + s[1..] == s;
    }
  }

  lemma ElementBack(v: Value)
    requires FitValue(v)
    ensures FromElement(ToElement(v)) == Ok(v)
  {
    if v.Number? {
      assert v.bytes[..8] == v.bytes;
    }
  }

  lemma PosBack(p: Pos)
    ensures p.Pos? ==> FromTreePos(ToTreePos(p)) == Ok(p)
    ensures p.Point? ==> FromTextPos(ToTextPos(p)) == Ok(p)
  {
  }

  lemma AttrsBack(attrs: map<int, Attr>)
    requires forall k :: k in attrs ==> Dated(attrs[k]) && !attrs[k].updated.Corrupt?
    ensures FromAttrs(attrs) == Ok(attrs)
  {
  }

  lemma SpanBack(s: Span, tree: bool)
    requires FitSpan(s, tree)
    ensures if tree then FromTreeSpan(ToTreeSpan(s)) == Ok(s) else FromTextSpan(ToTextSpan(s)) == Ok(s)
  {
    if s.TreeRange? {
      AttrsBack(s.attrs);
      hide FromAttrs;
    }
  }

  lemma SpansBack(spans: seq<Span>, tree: bool)
    requires FitSpans(spans, tree)
    ensures if tree then Each(FromTreeSpan, Map(ToTreeSpan, spans)) == Ok(spans)
            else Each(FromTextSpan, Map(ToTextSpan, spans)) == Ok(spans)
  {
    hide FitSpan, FromTreeSpan, FromTextSpan, ToTreeSpan, ToTextSpan;
    forall i | 0 <= i < |spans|
      ensures if tree then FromTreeSpan(ToTreeSpan(spans[i])) == Ok(spans[i])
              else FromTextSpan(ToTextSpan(spans[i])) == Ok(spans[i])
    {
      SpanBack(spans[i], tree);
    }
    if tree {
      EachBack(FromTreeSpan, ToTreeSpan, spans);
    } else {
      EachBack(FromTextSpan, ToTextSpan, spans);
    }
  }

  lemma RestoreBack(m: Model)
    requires m.RestoreOp? && FitModel(m)
    ensures FromOperation(ToOperation(m)) == Ok(m)
  {
    hide FromTreeSpan, FromTextSpan, ToTreeSpan, ToTextSpan, FitSpans, FromTreePos, FromTextPos, ToTreePos, ToTextPos;
    SpansBack(m.restore, m.tree);
    SpansBack(m.retombstone, m.tree);
    PosBack(m.from);
    PosBack(m.to);
    if m.tree {
      hide FromEdit;
      assert Each(FromGroup, []) == Ok([]);
    } else {
      hide FromTreeEdit;
    }
  }

  lemma TreeEditBack(m: Model)
    requires m.TreeEditOp? && FitModel(m)
    ensures FromOperation(ToOperation(m)) == Ok(m)
  {
    EachBack(FromGroup, ToGroup, m.contents);
    EachBack(Required, ToTicket, m.tickets);
    PosBack(m.from);
    PosBack(m.to);
    hide FromTreeSpan, FromTreePos, ToTreePos, FromGroup, ToGroup, ToTicket;
    assert Each(FromTreeSpan, []) == Ok([]);
  }

  /** Decoding what is written for an operation gives the operation back, field by field. */
  lemma DecodesWhatIsWritten(m: Model)
    requires FitModel(m)
    ensures FromOperation(ToOperation(m)) == Ok(m)
  {
    match m
    case SetOp(_, _, elem, _) => ElementBack(elem); hide FromElement, ToElement;
    case AddOp(_, _, elem, _) => ElementBack(elem); hide FromElement, ToElement;
    case IncreaseOp(_, elem, _, _) => ElementBack(elem); hide FromElement, ToElement;
    case ArraySetOp(_, _, elem, _) => ElementBack(elem); hide FromElement, ToElement;
    case RestoreOp(_, _, _, _, _, _, _, _) => RestoreBack(m);
    case TreeEditOp(_, _, _, _, _, _, _) => TreeEditBack(m);
    case EditOp(_, from, to, _, _) =>
      PosBack(from);
      PosBack(to);
      hide FromTextPos, ToTextPos;
      assert Each(FromTextSpan, []) == Ok([]);
    case _ =>
  }

  // ---- What decodes is fit to be written ----

  lemma SpanFits(s: TreeSpan)
    ensures FromTreeSpan(s).Ok? ==> FitSpan(FromTreeSpan(s).value, true)
  {
    if FromTreeSpan(s).Ok? {
      assert FromAttrs(s.attrs).Ok?;
    }
  }

  lemma SpansFit(spans: seq<TreeSpan>)
    ensures Each(FromTreeSpan, spans).Ok? ==> FitSpans(Each(FromTreeSpan, spans).value, true)
  {
    hide FromTreeSpan, FitSpan;
    if Each(FromTreeSpan, spans).Ok? {
      EachLength(FromTreeSpan, spans);
      forall i | 0 <= i < |spans|
        ensures FitSpan(Each(FromTreeSpan, spans).value[i], true)
      {
        EachOk(FromTreeSpan, spans, i);
        SpanFits(spans[i]);
      }
    }
  }

  lemma TextSpansFit(spans: seq<TextSpan>)
    ensures Each(FromTextSpan, spans).Ok? ==> FitSpans(Each(FromTextSpan, spans).value, false)
  {
    if Each(FromTextSpan, spans).Ok? {
      EachLength(FromTextSpan, spans);
      forall i | 0 <= i < |spans|
        ensures FitSpan(Each(FromTextSpan, spans).value[i], false)
      {
        EachOk(FromTextSpan, spans, i);
      }
    }
  }

  lemma EachLength<A, B>(f: A -> Result<B>, s: seq<A>)
    requires Each(f, s).Ok?
    ensures |Each(f, s).value| == |s|
  {
    if s != [] {
      EachOk(f, s, 0);
    }
  }

  lemma TreeEditFits(op: Op)
    requires op.TreeEdit?
    ensures FromTreeEdit(op).Ok? ==> FitModel(FromTreeEdit(op).value)
  {
    SpansFit(op.restore);
    SpansFit(op.retombstone);
    hide FromTreeSpan, FitSpans, FromGroup;
  }

  lemma EditFits(op: Op)
    requires op.Edit?
    ensures FromEdit(op).Ok? ==> FitModel(FromEdit(op).value)
  {
    TextSpansFit(op.textRestore);
    TextSpansFit(op.textRetombstone);
    hide FromTextSpan, FitSpans;
  }

  lemma DecodedFits(op: Op)
    ensures FromOperation(op).Ok? ==> FitModel(FromOperation(op).value)
  {
    hide FromTreeEdit, FromEdit;
    match op {
      case TreeEdit(_, _, _, _, _, _, _, _, _, _) => TreeEditFits(op);
      case Edit(_, _, _, _, _, _, _, _) => EditFits(op);
      case _ =>
    }
  }

  /** Every operation the decoder can return survives being written and decoded again. */
  lemma DecodedSurvives(op: Op)
    requires FromOperation(op).Ok?
    ensures FromOperation(ToOperation(FromOperation(op).value)) == FromOperation(op)
  {
    DecodedFits(op);
    DecodesWhatIsWritten(FromOperation(op).value);
  }

  // ---- Which operations decode ----

  predicate WholeElement(e: Element) {
    match e
    case NoElement => false
    case UnknownElement => false
    case Blank(_, t) => t.Stamp?
    case Encoded(blob) => blob.Good?
    case Double(bytes, t) => t.Stamp? && 8 <= |bytes|
    case Scalar(_, blob, t) => t.Stamp? && blob.Good?
  }

  predicate WholeId(n: NodeId) {
    n.NodeId? && n.created.Stamp?
  }

  predicate WholeTreePos(p: TreePos) {
    p.TreePos? && WholeId(p.parent) && WholeId(p.left)
  }

  predicate WholeTextPos(p: TextPos) {
    p.TextPos? && p.created.Stamp?
  }

  predicate WholeTextSpan(s: TextSpan) {
    s.TextSpan? && s.created.Stamp? && 0 <= s.start && 0 <= s.width && s.end == s.start + s.width
  }

  predicate WholeTreeSpan(s: TreeSpan) {
    && s.TreeSpan? && WholeId(s.id) && 0 <= s.length && (s.isText ==> s.length == s.width)
    && (forall k :: k in s.attrs ==> s.attrs[k].Attr? && s.attrs[k].updated.Stamp?)
    && (s.parent.NoId? || WholeId(s.parent)) && (s.left.NoId? || WholeId(s.left))
    && (s.right.NoId? || WholeId(s.right))
  }

  predicate WholeGroup(g: Group) {
    g.Group? && 0 < g.size && g.tree.Good?
  }

  /** A restore mode and restore spans come together. */
  predicate Paired(mode: Mode, restore: nat, retombstone: nat) {
    mode != NoMode <==> 0 < restore + retombstone
  }

  /** Everything an operation must carry is there and makes sense, in whatever order it is looked at. */
  predicate Acceptable(op: Op) {
    match op
    case NoOp => false
    case NoBody => false
    case UnknownBody => false
    case Set(p, _, e, x) => p.Stamp? && WholeElement(e) && x.Stamp?
    case Add(p, v, e, x) => p.Stamp? && v.Stamp? && WholeElement(e) && x.Stamp?
    case Move(p, v, c, x) => p.Stamp? && v.Stamp? && c.Stamp? && x.Stamp?
    case Remove(p, c, x) => p.Stamp? && c.Stamp? && x.Stamp?
    case Edit(p, f, t, x, restore, retombstone, mode, _) =>
      && p.Stamp? && WholeTextPos(f) && WholeTextPos(t) && x.Stamp? && Paired(mode, |restore|, |retombstone|)
      && (forall i :: 0 <= i < |restore| ==> WholeTextSpan(restore[i]))
      && (forall i :: 0 <= i < |retombstone| ==> WholeTextSpan(retombstone[i]))
    case Style(p, f, t, x, _) => p.Stamp? && WholeTextPos(f) && WholeTextPos(t) && x.Stamp?
    case Increase(p, e, x, _) => p.Stamp? && WholeElement(e) && !(e.Double? && NonFinite(e.bytes)) && x.Stamp?
    case TreeEdit(p, x, f, t, contents, restore, retombstone, mode, level, tickets) =>
      && p.Stamp? && x.Stamp? && WholeTreePos(f) && WholeTreePos(t) && Paired(mode, |restore|, |retombstone|)
      && (forall i :: 0 <= i < |contents| ==> WholeGroup(contents[i]))
      && (forall i :: 0 <= i < |restore| ==> WholeTreeSpan(restore[i]))
      && (forall i :: 0 <= i < |retombstone| ==> WholeTreeSpan(retombstone[i]))
      && (mode == NoMode ==> 0 <= level && forall i :: 0 <= i < |tickets| ==> tickets[i].Stamp?)
    case TreeStyle(p, x, f, t, _) => p.Stamp? && x.Stamp? && WholeTreePos(f) && WholeTreePos(t)
    case ArraySet(p, c, e, x) => p.Stamp? && c.Stamp? && WholeElement(e) && x.Stamp?
  }

  lemma EachOkIff<A, B>(f: A -> Result<B>, s: seq<A>)
    ensures Each(f, s).Ok? <==> forall i :: 0 <= i < |s| ==> f(s[i]).Ok?
    ensures Each(f, s).Ok? ==> |Each(f, s).value| == |s|
  {
    if Each(f, s).Ok? {
      forall i | 0 <= i < |s| ensures f(s[i]).Ok? {
        EachOk(f, s, i);
      }
      EachLength(f, s);
    } else {
      var i := EachErr(f, s);
    }
  }

  lemma ElementDecodes(e: Element)
    ensures FromElement(e).Ok? <==> WholeElement(e)
    ensures FromElement(e).Ok? ==>
      (FromElement(e).value.Number? && NonFinite(FromElement(e).value.bytes) <==> e.Double? && NonFinite(e.bytes))
  {
    if e.Double? && 8 <= |e.bytes| {
      assert e.bytes[..8][7] == e.bytes[7] && e.bytes[..8][6] == e.bytes[6];
    }
  }

  lemma TreeSpanDecodes(s: TreeSpan)
    ensures FromTreeSpan(s).Ok? <==> WholeTreeSpan(s)
  {
  }

  lemma EditDecodes(op: Op)
    requires op.Edit?
    ensures FromEdit(op).Ok? <==> Acceptable(op)
  {
    EachOkIff(FromTextSpan, op.textRestore);
    EachOkIff(FromTextSpan, op.textRetombstone);
    assert forall s: TextSpan :: FromTextSpan(s).Ok? <==> WholeTextSpan(s);
    hide FromTextSpan, WholeTextSpan;
  }

  lemma GroupsDecode(groups: seq<Group>)
    ensures Each(FromGroup, groups).Ok? <==> forall i :: 0 <= i < |groups| ==> WholeGroup(groups[i])
  {
    EachOkIff(FromGroup, groups);
  }

  lemma TreeSpansDecode(spans: seq<TreeSpan>)
    ensures Each(FromTreeSpan, spans).Ok? <==> forall i :: 0 <= i < |spans| ==> WholeTreeSpan(spans[i])
    ensures Each(FromTreeSpan, spans).Ok? ==> |Each(FromTreeSpan, spans).value| == |spans|
  {
    EachOkIff(FromTreeSpan, spans);
    forall i | 0 <= i < |spans| ensures FromTreeSpan(spans[i]).Ok? <==> WholeTreeSpan(spans[i]) {
      TreeSpanDecodes(spans[i]);
    }
  }

  lemma TicketsDecode(tickets: seq<Ticket>)
    ensures Each(Required, tickets).Ok? <==> forall i :: 0 <= i < |tickets| ==> tickets[i].Stamp?
  {
    EachOkIff(Required, tickets);
  }

  lemma TreePosDecodes(p: TreePos)
    ensures FromTreePos(p).Ok? <==> WholeTreePos(p)
  {
  }

  lemma TreeEditDecodes(op: Op)
    requires op.TreeEdit?
    ensures FromTreeEdit(op).Ok? <==> Acceptable(op)
  {
    hide Each, WholeGroup, WholeTreeSpan, FromTreePos, WholeTreePos;
    GroupsDecode(op.contents);
    TreeSpansDecode(op.restore);
    TreeSpansDecode(op.retombstone);
    TicketsDecode(op.tickets);
    TreePosDecodes(op.from);
    TreePosDecodes(op.to);
  }

  /** An operation decodes exactly when it is acceptable. */
  lemma DecodesIff(op: Op)
    ensures FromOperation(op).Ok? <==> Acceptable(op)
  {
    hide FromEdit, FromTreeEdit, FromElement, WholeElement;
    match op {
      case Set(_, _, e, _) => ElementDecodes(e);
      case Add(_, _, e, _) => ElementDecodes(e);
      case ArraySet(_, _, e, _) => ElementDecodes(e);
      case Increase(_, e, _, _) => ElementDecodes(e);
      case Edit(_, _, _, _, _, _, _, _) => EditDecodes(op);
      case TreeEdit(_, _, _, _, _, _, _, _, _, _) => TreeEditDecodes(op);
      case _ =>
    }
  }

  // ---- Which operations are undated ----

  function Fill(t: Ticket): (r: Ticket) {
    if t.Absent? then Stamp(0) else t
  }

  function FillBlob(b: Blob): (r: Blob) {
    if b.Undated? then Good(0) else b
  }

  function FillElement(e: Element): (r: Element) {
    match e
    case Blank(kind, t) => Blank(kind, Fill(t))
    case Encoded(blob) => Encoded(FillBlob(blob))
    case Double(bytes, t) => Double(bytes, Fill(t))
    case Scalar(kind, blob, t) => Scalar(kind, blob, Fill(t))
    case _ => e
  }

  function FillId(n: NodeId): (r: NodeId) {
    if n.NodeId? then NodeId(Fill(n.created), n.offset) else n
  }

  function FillTreePos(p: TreePos): (r: TreePos) {
    if p.TreePos? then TreePos(FillId(p.parent), FillId(p.left)) else p
  }

  function FillTextPos(p: TextPos): (r: TextPos) {
    if p.TextPos? then TextPos(Fill(p.created), p.offset, p.relative) else p
  }

  function FillTreeSpan(s: TreeSpan): (r: TreeSpan) {
    if s.NoTreeSpan? then s
    else s.(id := FillId(s.id), parent := FillId(s.parent), left := FillId(s.left), right := FillId(s.right))
  }

  function FillGroup(g: Group): (r: Group) {
    if g.Group? then Group(g.size, FillBlob(g.tree)) else g
  }

  /** The operation with every required ticket that is absent put in. */
  function FillOp(op: Op): (r: Op) {
    match op
    case Set(p, key, e, x) => Set(Fill(p), key, FillElement(e), Fill(x))
    case Add(p, v, e, x) => Add(Fill(p), Fill(v), FillElement(e), Fill(x))
    case Move(p, v, c, x) => Move(Fill(p), Fill(v), Fill(c), Fill(x))
    case Remove(p, c, x) => Remove(Fill(p), Fill(c), Fill(x))
    case Edit(p, f, t, x, restore, retombstone, mode, content) =>
      Edit(Fill(p), FillTextPos(f), FillTextPos(t), Fill(x), restore, retombstone, mode, content)
    case Style(p, f, t, x, style) => Style(Fill(p), FillTextPos(f), FillTextPos(t), Fill(x), style)
    case Increase(p, e, x, actor) => Increase(Fill(p), FillElement(e), Fill(x), actor)
    case TreeEdit(p, x, f, t, contents, restore, retombstone, mode, level, tickets) =>
      TreeEdit(Fill(p), Fill(x), FillTreePos(f), FillTreePos(t), Map(FillGroup, contents), Map(FillTreeSpan, restore),
               Map(FillTreeSpan, retombstone), mode, level, Map(Fill, tickets))
    case TreeStyle(p, x, f, t, style) => TreeStyle(Fill(p), Fill(x), FillTreePos(f), FillTreePos(t), style)
    case ArraySet(p, c, e, x) => ArraySet(Fill(p), Fill(c), FillElement(e), Fill(x))
    case _ => op
  }

  /** It decodes, or fails for a missing ticket. */
  predicate AtMostUndated<T>(r: Result<T>) {
    r.Err? ==> r.error == MissingTicket
  }

  lemma EachUndated<A, B>(f: A -> Result<B>, s: seq<A>)
    requires forall i :: 0 <= i < |s| ==> AtMostUndated(f(s[i]))
    ensures AtMostUndated(Each(f, s))
  {
    if Each(f, s).Err? {
      var i := EachErr(f, s);
      assert AtMostUndated(f(s[i]));
    }
  }

  lemma ElementUndated(e: Element)
    requires WholeElement(FillElement(e))
    ensures AtMostUndated(FromElement(e))
  {
  }

  lemma TreeSpanUndated(s: TreeSpan)
    requires WholeTreeSpan(FillTreeSpan(s))
    ensures AtMostUndated(FromTreeSpan(s))
  {
    AttrsBack(s.attrs);
    hide FromAttrs;
  }

  lemma TreeSpansUndated(spans: seq<TreeSpan>)
    requires forall i :: 0 <= i < |spans| ==> WholeTreeSpan(FillTreeSpan(spans[i]))
    ensures AtMostUndated(Each(FromTreeSpan, spans))
    ensures Each(FromTreeSpan, spans).Ok? ==> |Each(FromTreeSpan, spans).value| == |spans|
  {
    hide WholeTreeSpan, FillTreeSpan, FromTreeSpan, AtMostUndated;
    forall i | 0 <= i < |spans| ensures AtMostUndated(FromTreeSpan(spans[i])) {
      TreeSpanUndated(spans[i]);
    }
    EachUndated(FromTreeSpan, spans);
    EachOkIff(FromTreeSpan, spans);
  }

  lemma GroupsUndated(groups: seq<Group>)
    requires forall i :: 0 <= i < |groups| ==> WholeGroup(FillGroup(groups[i]))
    ensures AtMostUndated(Each(FromGroup, groups))
  {
    EachUndated(FromGroup, groups);
  }

  lemma TicketsUndated(tickets: seq<Ticket>)
    requires forall i :: 0 <= i < |tickets| ==> Fill(tickets[i]).Stamp?
    ensures AtMostUndated(Each(Required, tickets))
  {
    EachUndated(Required, tickets);
  }

  lemma TreePosUndated(p: TreePos)
    requires WholeTreePos(FillTreePos(p))
    ensures AtMostUndated(FromTreePos(p))
  {
  }

  lemma TreeEditUndated(op: Op)
    requires op.TreeEdit? && Acceptable(FillOp(op))
    ensures AtMostUndated(FromTreeEdit(op))
  {
    var full := FillOp(op);
    hide WholeTreeSpan, FillTreeSpan, WholeGroup, FillGroup, Each, FromTreePos, WholeTreePos, FillTreePos;
    forall i | 0 <= i < |op.restore| ensures WholeTreeSpan(FillTreeSpan(op.restore[i])) {
      assert full.restore[i] == FillTreeSpan(op.restore[i]);
    }
    forall i | 0 <= i < |op.retombstone| ensures WholeTreeSpan(FillTreeSpan(op.retombstone[i])) {
      assert full.retombstone[i] == FillTreeSpan(op.retombstone[i]);
    }
    forall i | 0 <= i < |op.contents| ensures WholeGroup(FillGroup(op.contents[i])) {
      assert full.contents[i] == FillGroup(op.contents[i]);
    }
    TreeSpansUndated(op.restore);
    TreeSpansUndated(op.retombstone);
    GroupsUndated(op.contents);
    TreePosUndated(op.from);
    TreePosUndated(op.to);
    if op.mode == NoMode {
      forall i | 0 <= i < |op.tickets| ensures Fill(op.tickets[i]).Stamp? {
        assert full.tickets[i] == Fill(op.tickets[i]);
      }
      TicketsUndated(op.tickets);
    }
  }

  lemma EditUndated(op: Op)
    requires op.Edit? && Acceptable(FillOp(op))
    ensures AtMostUndated(FromEdit(op))
  {
    EachOkIff(FromTextSpan, op.textRestore);
    EachOkIff(FromTextSpan, op.textRetombstone);
    assert forall s: TextSpan :: FromTextSpan(s).Ok? <==> WholeTextSpan(s);
    hide FromTextSpan, WholeTextSpan, Each;
  }

  /**
   An operation that lacks nothing but tickets fails for a missing ticket, so the stored path drops
   it and goes on.
   */
  lemma UndatedIsMissing(op: Op)
    requires !Acceptable(op) && Acceptable(FillOp(op))
    ensures FromOperation(op) == Err(MissingTicket) && !Datable(op)
  {
    DecodesIff(op);
    hide FromEdit, FromTreeEdit, FromElement, WholeElement, FillElement, Acceptable;
    FillAccepts(op);
    match op {
      case Set(_, _, e, _) => ElementUndated(e);
      case Add(_, _, e, _) => ElementUndated(e);
      case ArraySet(_, _, e, _) => ElementUndated(e);
      case Increase(_, e, _, _) => ElementUndated(e); NumberFilled(e);
      case Edit(_, _, _, _, _, _, _, _) => EditUndated(op);
      case TreeEdit(_, _, _, _, _, _, _, _, _, _) => TreeEditUndated(op);
      case _ =>
    }
  }

  lemma NumberFilled(e: Element)
    requires WholeElement(FillElement(e)) && !(FillElement(e).Double? && NonFinite(FillElement(e).bytes))
    ensures FromElement(e).Ok? ==> !(FromElement(e).value.Number? && NonFinite(FromElement(e).value.bytes))
  {
    ElementDecodes(e);
  }

  /** What acceptance of the filled operation says of its plain fields. */
  lemma FillAccepts(op: Op)
    requires Acceptable(FillOp(op))
    ensures !op.NoOp? && !op.NoBody? && !op.UnknownBody?
    ensures !Fill(op.parent).Corrupt? && !Fill(op.executed).Corrupt?
    ensures op.Add? || op.Move? ==> !Fill(op.prev).Corrupt?
    ensures op.Move? || op.Remove? || op.ArraySet? ==> !Fill(op.created).Corrupt?
    ensures op.Set? || op.Add? || op.ArraySet? || op.Increase? ==> WholeElement(FillElement(op.elem))
    ensures op.Increase? ==> !(FillElement(op.elem).Double? && NonFinite(FillElement(op.elem).bytes))
    ensures op.Style? ==> WholeTextPos(FillTextPos(op.textFrom)) && WholeTextPos(FillTextPos(op.textTo))
    ensures op.TreeStyle? ==> WholeTreePos(FillTreePos(op.from)) && WholeTreePos(FillTreePos(op.to))
  {
    hide WholeElement, FillElement, WholeTreePos, FillTreePos, WholeTextPos, FillTextPos;
  }

  // ---- What the repairs put in ----

  /** A non-finite delta comes out as the number of eight zero bytes; nothing else of an increase changes. */
  lemma IncreaseRepairMeans(op: Op)
    requires op.Increase? && FromOperation(Normal(op)).Ok?
    ensures
      var m := FromOperation(Normal(op)).value;
      && m.IncreaseOp? && Required(op.parent) == Ok(m.parent) && Required(op.executed) == Ok(m.executed)
      && m.actor == op.actor
      && (op.elem.Double? && NonFinite(op.elem.bytes) ==>
            m.elem.Number? && m.elem.bytes == [0, 0, 0, 0, 0, 0, 0, 0]
            && Required(op.elem.created) == Ok(m.elem.created))
      && (!(op.elem.Double? && NonFinite(op.elem.bytes)) ==> FromElement(op.elem) == Ok(m.elem))
  {
  }

  /**
   An ordinary tree edit comes out with a negative split level as zero, with the content groups that
   hold a node, and with all its split tickets, or none of them if one is absent.
   */
  lemma TreeEditRepairMeans(op: Op)
    requires op.TreeEdit? && FromOperation(Normal(op)).Ok? && FromOperation(Normal(op)).value.TreeEditOp?
    ensures
      var m := FromOperation(Normal(op)).value;
      && Required(op.parent) == Ok(m.parent) && Required(op.executed) == Ok(m.executed)
      && FromTreePos(op.from) == Ok(m.from) && FromTreePos(op.to) == Ok(m.to)
      && (op.level < 0 ==> m.level == 0) && (0 <= op.level ==> m.level == op.level)
      && Each(FromGroup, Keep(Filled, op.contents)) == Ok(m.contents)
      && ((exists i :: 0 <= i < |op.tickets| && op.tickets[i].Absent?) ==> m.tickets == [])
      && ((forall i :: 0 <= i < |op.tickets| ==> !op.tickets[i].Absent?) ==>
            Each(Required, op.tickets) == Ok(m.tickets))
  {
    hide FromTreeSpan, FromGroup, Filled, DatedSpan, FromTreePos, Keep;
    var fixed := Normal(op);
    assert Each(Required, fixed.tickets) == Ok(FromOperation(fixed).value.tickets);
    if exists i :: 0 <= i < |op.tickets| && op.tickets[i].Absent? {
      assert fixed.tickets == [];
    }
  }

  // ---- The passes as the program runs them ----

  lemma {:induction false} KeepLast<A>(p: A -> bool, s: seq<A>, x: A)
    ensures Keep(p, s + [x]) == Keep(p, s) + (if p(x) then [x] else [])
  {
    var longer := s + [x];
    if s == [] {
      assert longer == [x] && longer[1..] == [];
    } else {
      var first, last := if p(s[0]) then [s[0]] else [], if p(x) then [x] else [];
      assert longer[0] == s[0] && longer[1..] == s[1..] + [x];
      KeepLast(p, s[1..], x);
      assert Keep(p, longer) == first + (Keep(p, s[1..]) + last) && Keep(p, s) == first + Keep(p, s[1..]);
    }
  }

  lemma {:induction false} EachLast<A, B>(f: A -> Result<B>, s: seq<A>, x: A)
    ensures Each(f, s).Err? ==> Each(f, s + [x]) == Each(f, s)
    ensures Each(f, s).Ok? && f(x).Err? ==> Each(f, s + [x]) == Err(f(x).error)
    ensures Each(f, s).Ok? && f(x).Ok? ==> Each(f, s + [x]) == Ok(Each(f, s).value + [f(x).value])
  {
    var longer := s + [x];
    if s == [] {
      assert longer == [x] && longer[1..] == [];
      if f(x).Ok? {
        assert Each(f, longer[1..]) == Ok([]);
        assert [f(x).value] + [] == [] + [f(x).value];
      }
    } else {
      assert longer[0] == s[0] && longer[1..] == s[1..] + [x];
      EachLast(f, s[1..], x);
      if Each(f, s).Ok? && f(x).Ok? {
        var head, rest := [f(s[0]).value], Each(f, s[1..]).value;
        assert Each(f, longer) == Ok(head + (rest + [f(x).value])) && Each(f, s) == Ok(head + rest);
        assert head + (rest + [f(x).value]) == head + rest + [f(x).value];
      }
    }
  }

  lemma {:induction false} EachStops<A, B>(f: A -> Result<B>, s: seq<A>, t: seq<A>)
    requires Each(f, s).Err?
    ensures Each(f, s + t) == Each(f, s)
  {
    assert (s + t)[0] == s[0] && (s + t)[1..] == s[1..] + t;
    if f(s[0]).Ok? {
      EachStops(f, s[1..], t);
    }
  }

  method FromOperations(ops: seq<Op>) returns (r: Result<seq<Model>>)
    ensures r == Strict(ops)
  {
    var models := [];
    for i := 0 to |ops|
      invariant Strict(ops[..i]) == Ok(models)
    {
      EachLast(FromOperation, ops[..i], ops[i]);
      assert ops[..i + 1] == ops[..i] + [ops[i]];
      var one := FromOperation(ops[i]);
      if one.Err? {
        EachStops(FromOperation, ops[..i + 1], ops[i + 1..]);
        assert ops == ops[..i + 1] + ops[i + 1..];
        return Err(one.error);
      }
      models := models + [one.value];
    }
    assert ops[..|ops|] == ops;
    r := Ok(models);
  }

  method WithoutUndatedOperations(ops: seq<Op>) returns (kept: seq<Op>)
    ensures kept == Keep(Datable, ops)
  {
    kept := [];
    for i := 0 to |ops|
      invariant kept == Keep(Datable, ops[..i])
    {
      KeepLast(Datable, ops[..i], ops[i]);
      assert ops[..i + 1] == ops[..i] + [ops[i]];
      if FromOperation(ops[i]) == Err(MissingTicket) {
        continue;
      }
      kept := kept + [ops[i]];
    }
    assert ops[..|ops|] == ops;
  }

  method WithoutEmptyContents(groups: seq<Group>) returns (kept: seq<Group>)
    ensures kept == Keep(Filled, groups)
  {
    kept := [];
    for i := 0 to |groups|
      invariant kept == Keep(Filled, groups[..i])
    {
      KeepLast(Filled, groups[..i], groups[i]);
      assert groups[..i + 1] == groups[..i] + [groups[i]];
      if groups[i].NoGroup? || groups[i].size == 0 {
        continue;
      }
      kept := kept + [groups[i]];
    }
    assert groups[..|groups|] == groups;
  }

  method SplitTicketsUnlessUndated(tickets: seq<Ticket>) returns (r: seq<Ticket>)
    ensures r == WholeTickets(tickets)
  {
    for i := 0 to |tickets|
      invariant forall j :: 0 <= j < i ==> !tickets[j].Absent?
    {
      if tickets[i].Absent? {
        return [];
      }
    }
    r := tickets;
  }

  method NormalizeOne(op: Op) returns (r: Op)
    ensures r == Normal(op)
  {
    match op
    case Increase(parent, elem, executed, actor) =>
      r := Increase(parent, FiniteElement(elem), executed, actor);
    case TreeEdit(parent, executed, from, to, contents, restore, retombstone, mode, level, tickets) =>
      var kept := WithoutEmptyContents(contents);
      var whole := SplitTicketsUnlessUndated(tickets);
      r := TreeEdit(parent, executed, from, to, kept, Map(DatedSpan, restore), Map(DatedSpan, retombstone), mode,
                    if level < 0 then 0 else level, whole);
    case _ => r := op;
  }

  /** Repairs the operations in place. */
  method NormalizeStoredOperations(ops: array<Op>)
    modifies ops
    ensures ops[..] == Map(Normal, old(ops[..]))
  {
    hide Normal;
    for i := 0 to ops.Length
      invariant forall j :: 0 <= j < i ==> ops[j] == Normal(old(ops[j]))
      invariant forall j :: i <= j < ops.Length ==> ops[j] == old(ops[j])
    {
      ops[i] := NormalizeOne(ops[i]);
    }
  }

  method FromStoredOperations(ops: array<Op>) returns (r: Result<seq<Model>>)
    modifies ops
    ensures r == Stored(old(ops[..])) && ops[..] == Map(Normal, old(ops[..]))
  {
    hide Strict, Keep;
    NormalizeStoredOperations(ops);
    var repaired := ops[..];
    r := FromOperations(repaired);
    if r == Err(MissingTicket) {
      var kept := WithoutUndatedOperations(repaired);
      r := FromOperations(kept);
    }
  }

  method SanitizeStoredOperations(ops: array<Op>) returns (kept: seq<Op>)
    modifies ops
    ensures kept == Sanitized(old(ops[..])) && ops[..] == Map(Normal, old(ops[..]))
  {
    hide Strict, Keep;
    NormalizeStoredOperations(ops);
    kept := ops[..];
    var r := FromOperations(kept);
    if r == Err(MissingTicket) {
      kept := WithoutUndatedOperations(kept);
    }
  }
}
