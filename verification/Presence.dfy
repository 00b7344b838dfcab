/**
 The presence events of a document (pkg/document): which clients are visible with which
 presence, and the stream of events the application reads from the document's channel.

 A client is visible when it is online and has a presence. Changes pulled from the server
 set and clear presences, notices of the watch stream set and clear the online mark, and
 each of them publishes the event of the transition it makes. The transition and the sends
 are made under one mutex, the state itself is guarded by another one that is released
 before the sends, so that other goroutines see the new state while its events are still
 on their way.
 */
module Presence {
  datatype Option<T> = None | Some(value: T)

  type Client = int
  type Data = map<int, int>

  datatype PresenceChange = Put(data: Data) | Patch(data: Data, removed: set<int>) | Clear

  /** A change of one actor; `fails` says that executing its operations reports an error. */
  datatype Change = Change(actor: Client, presence: Option<PresenceChange>, fails: bool)

  datatype Kind = Watched | PresenceChanged | Unwatched

  datatype Event = Event(kind: Kind, client: Client, data: Option<Data>)

  datatype Doc = Doc(presences: map<Client, Data>, online: set<Client>)

  // ---- State transitions ----

  /** The presence of a client, if it is online and has one. */
  function Shown(d: Doc, c: Client): (r: Option<Data>) {
    if c in d.online && c in d.presences then Some(d.presences[c]) else None
  }

  function Executed(d: Doc, c: Client, p: PresenceChange): (r: Doc) {
    match p
    case Clear => Doc(d.presences - {c}, d.online - {c})
    case Put(data) => d.(presences := d.presences[c := data])
    case Patch(data, removed) =>
      var base := if c in d.presences then d.presences[c] else map[];
      d.(presences := d.presences[c := (base - removed) + data])
  }

  /** The event of a transition of one client, by what it had and was before. */
  function Reconcile(before: Doc, after: Doc, c: Client): (r: seq<Event>) {
    var had, wasOnline := c in before.presences, c in before.online;
    if c !in after.presences || c !in after.online then
      if had && wasOnline then [Event(Unwatched, c, Shown(before, c))] else []
    else if !had || !wasOnline then [Event(Watched, c, Shown(after, c))]
    else [Event(PresenceChanged, c, Shown(after, c))]
  }

  function Applied1(d: Doc, c: Change): (r: Doc) {
    if c.presence.None? then d else Executed(d, c.actor, c.presence.value)
  }

  function Produced1(d: Doc, c: Change): (r: seq<Event>) {
    if c.presence.None? then [] else Reconcile(d, Applied1(d, c), c.actor)
  }

  function Applied(d: Doc, changes: seq<Change>): (r: Doc)
    decreases |changes|
  {
    if changes == [] then d else Applied(Applied1(d, changes[0]), changes[1..])
  }

  function Produced(d: Doc, changes: seq<Change>): (r: seq<Event>)
    decreases |changes|
  {
    if changes == [] then [] else Produced1(d, changes[0]) + Produced(Applied1(d, changes[0]), changes[1..])
  }

  /** The first failing change from `i` on, or the number of changes. */
  function Failing(changes: seq<Change>, i: nat): (r: nat)
    requires i <= |changes|
    ensures i <= r <= |changes|
    ensures forall j :: i <= j < r ==> !changes[j].fails
    ensures r < |changes| ==> changes[r].fails
    decreases |changes| - i
  {
    if i == |changes| || changes[i].fails then i else Failing(changes, i + 1)
  }

  /** The changes before the first that fails. */
  function Sound(changes: seq<Change>): (r: seq<Change>) {
    changes[..Failing(changes, 0)]
  }

  predicate Fails(changes: seq<Change>) {
    Failing(changes, 0) < |changes|
  }

  /** A pack that fails keeps what was applied before the failure but reports none of its events. */
  function Reported(d: Doc, changes: seq<Change>): (r: seq<Event>) {
    if Fails(changes) then [] else Produced(d, changes)
  }

  function Joined(d: Doc, c: Client): (r: Doc) {
    d.(online := d.online + {c})
  }

  function Parted(d: Doc, c: Client): (r: Doc) {
    d.(online := d.online - {c})
  }

  // ---- The goroutines around it ----

  /**
   `publishing` says that a goroutine holds the events mutex; `outbox` are the events of its
   transition it has yet to send. The channel holds at most one event; `received` are those
   the application has taken out, oldest first.
   */
  datatype State = State(
    self: Client, doc: Doc, publishing: bool, outbox: seq<Event>, channel: seq<Event>, received: seq<Event>)

  datatype Step =
    | Apply(changes: seq<Change>)
    | Watch(client: Client)
    | Unwatch(client: Client)
    | Send
    | Release
    | Receive
    | Local(presence: PresenceChange)

  predicate Enabled(s: State, e: Step) {
    match e
    case Apply(_) => !s.publishing
    case Watch(_) => !s.publishing
    case Unwatch(_) => !s.publishing
    case Send => s.outbox != [] && s.channel == []
    case Release => s.publishing && s.outbox == []
    case Receive => s.channel != []
    case Local(_) => true
  }

  function Next(s: State, e: Step): (r: State)
    requires Enabled(s, e)
  {
    match e
    case Apply(changes) =>
      s.(publishing := true, doc := Applied(s.doc, Sound(changes)), outbox := Reported(s.doc, changes))
    case Watch(c) =>
      s.(publishing := true, doc := Joined(s.doc, c), outbox := Reconcile(s.doc, Joined(s.doc, c), c))
    case Unwatch(c) =>
      s.(publishing := true, doc := Parted(s.doc, c), outbox := Reconcile(s.doc, Parted(s.doc, c), c))
    case Send => s.(outbox := s.outbox[1..], channel := [s.outbox[0]])
    case Release => s.(publishing := false)
    case Receive => s.(channel := s.channel[1..], received := s.received + [s.channel[0]])
    // An edit of this client's own presence is made under the state mutex alone and has no event.
    case Local(p) => s.(doc := s.doc.(presences := Executed(s.doc, s.self, p).presences))
  }

  // ---- What the events say ----

  /** What a reader of the events knows of one client after them. */
  function Replay(known: Option<Data>, events: seq<Event>, c: Client): (r: Option<Data>)
    decreases |events|
  {
    if events == [] then known
    else Replay(Learned(known, events[0], c), events[1..], c)
  }

  function Learned(known: Option<Data>, e: Event, c: Client): (r: Option<Data>) {
    if e.client != c then known else if e.kind == Unwatched then None else e.data
  }

  /** Whether the events of one client alternate as they should, from visible or not to visible or not. */
  predicate Alternates(on: bool, events: seq<Event>, c: Client, end: bool)
    decreases |events|
  {
    if events == [] then on == end
    else if events[0].client != c then Alternates(on, events[1..], c, end)
    else
      && (events[0].kind == Watched <==> !on)
      && Alternates(events[0].kind != Unwatched, events[1..], c, end)
  }

  lemma {:induction false} ReplaySplit(known: Option<Data>, a: seq<Event>, b: seq<Event>, c: Client)
    ensures Replay(known, a + b, c) == Replay(Replay(known, a, c), b, c)
    decreases |a|
  {
    if a == [] {
      assert a + b == b;
    } else {
      assert (a + b)[1..] == a[1..] + b;
      ReplaySplit(Learned(known, a[0], c), a[1..], b, c);
    }
  }

  lemma {:induction false} AlternatesSplit(on: bool, a: seq<Event>, mid: bool, b: seq<Event>, c: Client, end: bool)
    requires Alternates(on, a, c, mid) && Alternates(mid, b, c, end)
    ensures Alternates(on, a + b, c, end)
    decreases |a|
  {
    if a == [] {
      assert a + b == b;
    } else {
      assert (a + b)[1..] == a[1..] + b;
      AlternatesSplit(if a[0].client != c then on else a[0].kind != Unwatched, a[1..], mid, b, c, end);
    }
  }

  /** What a transition says about a client is what became of the client. */
  ghost predicate Tells(before: Doc, events: seq<Event>, after: Doc, c: Client) {
    && Replay(Shown(before, c), events, c) == Shown(after, c)
    && Alternates(Shown(before, c).Some?, events, c, Shown(after, c).Some?)
  }

  /**
   The event of a transition: none if the client is visible neither before nor after, else one of its
   own. It says Watched, Unwatched or PresenceChanged as the client appears, goes or stays, even with
   the presence it had, and carries the presence shown after, or last.
   */
  lemma ReconcileTells(before: Doc, after: Doc, a: Client, c: Client)
    requires c != a ==> Shown(after, c) == Shown(before, c)
    ensures Tells(before, Reconcile(before, after, a), after, c)
    ensures Shown(before, a).None? && Shown(after, a).None? ==> Reconcile(before, after, a) == []
    ensures Shown(before, a).None? && Shown(after, a).Some? ==>
              Reconcile(before, after, a) == [Event(Watched, a, Shown(after, a))]
    ensures Shown(before, a).Some? && Shown(after, a).Some? ==>
              Reconcile(before, after, a) == [Event(PresenceChanged, a, Shown(after, a))]
    ensures Shown(before, a).Some? && Shown(after, a).None? ==>
              Reconcile(before, after, a) == [Event(Unwatched, a, Shown(before, a))]
  {
    var events := Reconcile(before, after, a);
    if events != [] {
      assert events[1..] == [];
      assert Replay(Shown(before, c), events, c) == Learned(Shown(before, c), events[0], c);
    }
  }

  lemma OthersStay(d: Doc, a: Client, p: PresenceChange, c: Client)
    requires c != a
    ensures Shown(Executed(d, a, p), c) == Shown(d, c)
  {
  }

  lemma Produced1Tells(d: Doc, x: Change, c: Client)
    ensures Tells(d, Produced1(d, x), Applied1(d, x), c)
  {
    if x.presence.Some? {
      if c != x.actor {
        OthersStay(d, x.actor, x.presence.value, c);
      }
      ReconcileTells(d, Applied1(d, x), x.actor, c);
    }
  }

  lemma TellsOn(a: Doc, e: seq<Event>, b: Doc, f: seq<Event>, d: Doc, c: Client)
    requires Tells(a, e, b, c) && Tells(b, f, d, c)
    ensures Tells(a, e + f, d, c)
  {
    ReplaySplit(Shown(a, c), e, f, c);
    AlternatesSplit(Shown(a, c).Some?, e, Shown(b, c).Some?, f, c, Shown(d, c).Some?);
  }

  /** The events of a sequence of changes tell every transition of every client. */
  lemma {:induction false} ProducedTells(d: Doc, changes: seq<Change>, c: Client)
    ensures Tells(d, Produced(d, changes), Applied(d, changes), c)
    decreases |changes|
  {
    if changes != [] {
      hide Tells;
      var mid := Applied1(d, changes[0]);
      Produced1Tells(d, changes[0], c);
      ProducedTells(mid, changes[1..], c);
      TellsOn(d, Produced1(d, changes[0]), mid, Produced(mid, changes[1..]), Applied(d, changes), c);
    }
  }

  // ---- The invariant over a run ----

  /** All events so far, those not sent yet included. */
  function Stream(s: State): (r: seq<Event>) {
    s.received + s.channel + s.outbox
  }

  /** For a run that starts with document `d0` and nothing published. */
  ghost predicate InStep(d0: Doc, s: State, c: Client) {
    Tells(d0, Stream(s), s.doc, c)
  }

  // ---- Packs that fail without harm ----

  function Edit1(p: Option<Data>, x: Change, c: Client): (r: Option<Data>) {
    if x.actor != c || x.presence.None? then p
    else
      match x.presence.value
      case Clear => p
      case Put(data) => Some(data)
      case Patch(data, removed) => Some(((if p.Some? then p.value else map[]) - removed) + data)
  }

  /** What a client's own edits, read off the changes one after the other, make of its presence. */
  function Edited(p: Option<Data>, changes: seq<Change>, c: Client): (r: Option<Data>)
    decreases |changes|
  {
    if changes == [] then p else Edited(Edit1(p, changes[0], c), changes[1..], c)
  }

  predicate Clears(changes: seq<Change>, c: Client) {
    exists i :: 0 <= i < |changes| && changes[i].actor == c && changes[i].presence == Some(Clear)
  }

  predicate Edits(changes: seq<Change>, c: Client) {
    exists i :: 0 <= i < |changes| && changes[i].actor == c && changes[i].presence.Some?
        && !changes[i].presence.value.Clear?
  }

  /**
   The changes leave what is seen of an online client alone: one with a presence does not clear it
   and its edits add up to what it had; one without either clears, which takes it offline, or
   does not edit.
   */
  predicate Spares(d: Doc, changes: seq<Change>, c: Client) {
    if c in d.presences then !Clears(changes, c) && Edited(Some(d.presences[c]), changes, c) == Some(d.presences[c])
    else Clears(changes, c) || !Edits(changes, c)
  }

  /** A failing pack spares every other online client with the changes before the failing one. */
  predicate Harmless(d: Doc, self: Client, changes: seq<Change>) {
    forall c :: c in d.online && c != self ==> Spares(d, Sound(changes), c)
  }

  /** What the applied part of a failing pack does: nothing is seen of it. */
  ghost predicate Silent(d: Doc, self: Client, changes: seq<Change>) {
    forall c :: c != self ==> Shown(Applied(d, Sound(changes)), c) == Shown(d, c)
  }

  function Own(d: Doc, c: Client): (r: Option<Data>) {
    if c in d.presences then Some(d.presences[c]) else None
  }

  lemma {:induction false} OfflineStays(d: Doc, changes: seq<Change>, c: Client)
    requires c !in d.online
    ensures c !in Applied(d, changes).online
    decreases |changes|
  {
    if changes != [] {
      OfflineStays(Applied1(d, changes[0]), changes[1..], c);
    }
  }

  lemma {:induction false} ClearHides(d: Doc, changes: seq<Change>, c: Client, i: nat)
    requires i < |changes| && changes[i].actor == c && changes[i].presence == Some(Clear)
    ensures c !in Applied(d, changes).online
    decreases |changes|
  {
    if i == 0 {
      OfflineStays(Applied1(d, changes[0]), changes[1..], c);
    } else {
      ClearHides(Applied1(d, changes[0]), changes[1..], c, i - 1);
    }
  }

  lemma {:induction false} UnclearedFolds(d: Doc, changes: seq<Change>, c: Client)
    requires !Clears(changes, c)
    ensures c in Applied(d, changes).online <==> c in d.online
    ensures Own(Applied(d, changes), c) == Edited(Own(d, c), changes, c)
    decreases |changes|
  {
    if changes != [] {
      var x, rest := changes[0], changes[1..];
      assert !(x.actor == c && x.presence == Some(Clear));
      assert forall i :: 0 <= i < |rest| ==> rest[i] == changes[i + 1];
      UnclearedFolds(Applied1(d, x), rest, c);
      assert Own(Applied1(d, x), c) == Edit1(Own(d, c), x, c);
    }
  }

  lemma {:induction false} EditsShow(p: Option<Data>, changes: seq<Change>, c: Client)
    ensures Edited(p, changes, c).None? <==> p.None? && !Edits(changes, c)
    decreases |changes|
  {
    if changes != [] {
      var x, rest := changes[0], changes[1..];
      EditsShow(Edit1(p, x, c), rest, c);
      assert forall i :: 0 <= i < |rest| ==> rest[i] == changes[i + 1];
      assert forall i :: 0 < i < |changes| ==> changes[i] == rest[i - 1];
    }
  }

  /** A client that clears is offline afterwards and has what it edited after its last Clear, from nothing. */
  lemma {:induction false} ClearedFolds(d: Doc, changes: seq<Change>, c: Client, i: nat)
    requires i < |changes| && changes[i].actor == c && changes[i].presence == Some(Clear)
    requires !Clears(changes[i + 1..], c)
    ensures c !in Applied(d, changes).online
    ensures Own(Applied(d, changes), c) == Edited(None, changes[i + 1..], c)
    decreases i
  {
    if i == 0 {
      assert changes[0 + 1..] == changes[1..];
      UnclearedFolds(Applied1(d, changes[0]), changes[1..], c);
    } else {
      assert changes[1..][i..] == changes[i + 1..];
      ClearedFolds(Applied1(d, changes[0]), changes[1..], c, i - 1);
    }
  }

  ghost predicate LastClear(changes: seq<Change>, c: Client, i: int) {
    0 <= i < |changes| && changes[i].actor == c && changes[i].presence == Some(Clear) && !Clears(changes[i + 1..], c)
  }

  /** What becomes of one client by a sequence of changes, read off the changes. */
  ghost predicate Settled(before: Doc, changes: seq<Change>, after: Doc, c: Client) {
    && (c in after.online <==> c in before.online && !Clears(changes, c))
    && (!Clears(changes, c) ==> Own(after, c) == Edited(Own(before, c), changes, c))
    && (forall i :: LastClear(changes, c, i) ==> Own(after, c) == Edited(None, changes[i + 1..], c))
  }

  /** Every client, online or not, ends up as its own changes say. */
  lemma AppliedSettles(d: Doc, changes: seq<Change>, c: Client)
    ensures Settled(d, changes, Applied(d, changes), c)
  {
    hide Applied, Edited, Own;
    if Clears(changes, c) {
      var i :| 0 <= i < |changes| && changes[i].actor == c && changes[i].presence == Some(Clear);
      ClearHides(d, changes, c, i);
    } else {
      UnclearedFolds(d, changes, c);
    }
    forall i | LastClear(changes, c, i)
      ensures Own(Applied(d, changes), c) == Edited(None, changes[i + 1..], c)
    {
      ClearedFolds(d, changes, c, i);
    }
  }

  /** After a Clear a watch notice has no event and shows nothing: the presence is gone, not hidden. */
  lemma ClearThenWatch(d: Doc, c: Client)
    ensures
      var cleared := Applied(d, [Change(c, Some(Clear), false)]);
      Reconcile(cleared, Joined(cleared, c), c) == [] && Shown(Joined(cleared, c), c) == None
  {
    var x := Change(c, Some(Clear), false);
    assert [x][1..] == [];
    assert Applied(d, [x]) == Applied(Applied1(d, x), []);
  }

  /** For an online client, sparing it is the same as leaving what is shown of it alone. */
  lemma SparesIffSame(d: Doc, changes: seq<Change>, c: Client)
    requires c in d.online
    ensures Spares(d, changes, c) <==> Shown(Applied(d, changes), c) == Shown(d, c)
  {
    if Clears(changes, c) {
      var i :| 0 <= i < |changes| && changes[i].actor == c && changes[i].presence == Some(Clear);
      ClearHides(d, changes, c, i);
    } else {
      UnclearedFolds(d, changes, c);
      EditsShow(Own(d, c), changes, c);
    }
  }

  /** The condition that can be read off the pack is exact. */
  lemma HarmlessIffSilent(d: Doc, self: Client, changes: seq<Change>)
    ensures Harmless(d, self, changes) <==> Silent(d, self, changes)
  {
    hide Spares, Applied, Sound;
    forall c | c != self
      ensures c !in d.online ==> Shown(Applied(d, Sound(changes)), c) == Shown(d, c)
      ensures c in d.online ==>
        (Spares(d, Sound(changes), c) <==> Shown(Applied(d, Sound(changes)), c) == Shown(d, c))
    {
      if c in d.online {
        SparesIffSame(d, Sound(changes), c);
      } else {
        OfflineStays(d, Sound(changes), c);
      }
    }
  }

  /** Enough for it: before the failing change only offline clients and this one touch their presences. */
  lemma BystandersHarmless(d: Doc, self: Client, changes: seq<Change>)
    requires forall i :: 0 <= i < |Sound(changes)| && Sound(changes)[i].presence.Some? ==>
      Sound(changes)[i].actor == self || Sound(changes)[i].actor !in d.online
    ensures Harmless(d, self, changes)
  {
    forall c | c in d.online && c != self
      ensures Spares(d, Sound(changes), c)
    {
      Unedited(Own(d, c), Sound(changes), c);
    }
  }

  lemma {:induction false} Unedited(p: Option<Data>, changes: seq<Change>, c: Client)
    requires forall i :: 0 <= i < |changes| && changes[i].presence.Some? ==> changes[i].actor != c
    ensures Edited(p, changes, c) == p
    decreases |changes|
  {
    if changes != [] {
      assert forall i :: 0 <= i < |changes[1..]| ==> changes[1..][i] == changes[i + 1];
      Unedited(p, changes[1..], c);
    }
  }

  // ---- Every step ----

  /** If the step is a pack that fails, it is harmless. */
  ghost predicate Guarded(s: State, e: Step) {
    e.Apply? && Fails(e.changes) ==> Harmless(s.doc, s.self, e.changes)
  }

  lemma {:induction false} TellsSame(before: Doc, events: seq<Event>, a: Doc, b: Doc, c: Client)
    requires Tells(before, events, a, c) && Shown(a, c) == Shown(b, c)
    ensures Tells(before, events, b, c)
  {
  }

  lemma QuietStream(s: State)
    requires !s.publishing ==> s.outbox == []
    ensures !s.publishing ==> Stream(s) == s.received + s.channel
  {
  }

  lemma TransitionKeeps(d0: Doc, s: State, events: seq<Event>, after: Doc, c: Client)
    requires InStep(d0, s, c) && s.outbox == [] && Tells(s.doc, events, after, c)
    ensures InStep(d0, s.(publishing := true, doc := after, outbox := events), c)
  {
    var s' := s.(publishing := true, doc := after, outbox := events);
    assert Stream(s') == Stream(s) + events;
    TellsOn(d0, Stream(s), s.doc, events, after, c);
  }

  /** A mutex nobody holds has no events left to send, and the channel never holds more than one. */
  predicate Tidy(s: State) {
    (!s.publishing ==> s.outbox == []) && |s.channel| <= 1
  }

  lemma StepKeeps(d0: Doc, s: State, e: Step, c: Client)
    requires Tidy(s) && Enabled(s, e) && Guarded(s, e) && c != s.self && InStep(d0, s, c)
    ensures Tidy(Next(s, e)) && Next(s, e).self == s.self && InStep(d0, Next(s, e), c)
  {
    hide Tells, Applied, Produced, Sound, Fails, Reconcile, Harmless;
    var s' := Next(s, e);
    match e
    case Apply(changes) =>
      if Fails(changes) {
        HarmlessIffSilent(s.doc, s.self, changes);
        NoEvents(s.doc, s'.doc, c);
      } else {
        SoundAll(changes);
        ProducedTells(s.doc, changes, c);
      }
      TransitionKeeps(d0, s, Reported(s.doc, changes), s'.doc, c);
    case Watch(a) =>
      ReconcileTells(s.doc, s'.doc, a, c);
      TransitionKeeps(d0, s, s'.outbox, s'.doc, c);
    case Unwatch(a) =>
      ReconcileTells(s.doc, s'.doc, a, c);
      TransitionKeeps(d0, s, s'.outbox, s'.doc, c);
    case Send => assert Stream(s') == Stream(s);
    case Release => assert Stream(s') == Stream(s);
    case Receive => assert Stream(s') == Stream(s);
    case Local(p) =>
      assert Stream(s') == Stream(s);
      TellsSame(d0, Stream(s), s.doc, s'.doc, c);
  }

  lemma SoundAll(changes: seq<Change>)
    requires !Fails(changes)
    ensures Sound(changes) == changes
  {
  }

  lemma NoEvents(before: Doc, after: Doc, c: Client)
    requires Shown(after, c) == Shown(before, c)
    ensures Tells(before, [], after, c)
  {
  }

  // ---- Whole runs ----

  ghost predicate Legal(s: State, run: seq<Step>)
    decreases |run|
  {
    run == [] || (Enabled(s, run[0]) && Legal(Next(s, run[0]), run[1..]))
  }

  ghost function Play(s: State, run: seq<Step>): (r: State)
    requires Legal(s, run)
    decreases |run|
  {
    if run == [] then s else Play(Next(s, run[0]), run[1..])
  }

  /** The state after `n` steps. */
  ghost function StateAt(s: State, run: seq<Step>, n: nat): (r: State)
    requires Legal(s, run) && n <= |run|
    decreases n
  {
    if n == 0 then s else StateAt(Next(s, run[0]), run[1..], n - 1)
  }

  lemma {:induction false} StepAt(s: State, run: seq<Step>, n: nat)
    requires Legal(s, run) && n < |run|
    ensures Enabled(StateAt(s, run, n), run[n]) && StateAt(s, run, n + 1) == Next(StateAt(s, run, n), run[n])
    decreases n
  {
    if n == 0 {
      assert StateAt(Next(s, run[0]), run[1..], 0) == Next(s, run[0]);
    } else {
      StepAt(Next(s, run[0]), run[1..], n - 1);
    }
  }

  lemma {:induction false} LastState(s: State, run: seq<Step>)
    requires Legal(s, run)
    ensures StateAt(s, run, |run|) == Play(s, run)
    decreases |run|
  {
    if run != [] {
      LastState(Next(s, run[0]), run[1..]);
    }
  }

  /** Every pack of the run that fails is harmless to the document it is applied to. */
  ghost predicate NothingLost(s: State, run: seq<Step>)
    requires Legal(s, run)
  {
    forall n :: 0 <= n < |run| ==> Guarded(StateAt(s, run, n), run[n])
  }

  /** The stream tells the truth about every other client, and alternates as it should. */
  ghost predicate Honest(d0: Doc, s: State) {
    forall c :: c != s.self ==> InStep(d0, s, c)
  }

  lemma StepHonest(d0: Doc, s: State, e: Step)
    requires Tidy(s) && Enabled(s, e) && Guarded(s, e) && Honest(d0, s)
    ensures Tidy(Next(s, e)) && Next(s, e).self == s.self && Honest(d0, Next(s, e))
  {
    StepTidy(s, e);
    hide InStep, Guarded, Tidy;
    forall c | c != s.self
      ensures InStep(d0, Next(s, e), c)
    {
      StepKeeps(d0, s, e, c);
    }
  }

  lemma StepTidy(s: State, e: Step)
    requires Tidy(s) && Enabled(s, e)
    ensures Tidy(Next(s, e)) && Next(s, e).self == s.self
  {
  }

  lemma {:induction false} RunTidy(s: State, run: seq<Step>, n: nat)
    requires Tidy(s) && Legal(s, run) && n <= |run|
    ensures Tidy(StateAt(s, run, n)) && StateAt(s, run, n).self == s.self
    decreases n
  {
    hide Tidy, Next, Enabled;
    if n > 0 {
      StepAt(s, run, n - 1);
      RunTidy(s, run, n - 1);
      StepTidy(StateAt(s, run, n - 1), run[n - 1]);
    }
  }

  lemma {:induction false} RunHonest(d0: Doc, s: State, run: seq<Step>, n: nat)
    requires Tidy(s) && Legal(s, run) && NothingLost(s, run) && Honest(d0, s) && n <= |run|
    ensures Honest(d0, StateAt(s, run, n))
    decreases n
  {
    hide Tidy, Next, Enabled, Honest, Guarded;
    if n > 0 {
      StepAt(s, run, n - 1);
      RunTidy(s, run, n - 1);
      RunHonest(d0, s, run, n - 1);
      StepHonest(d0, StateAt(s, run, n - 1), run[n - 1]);
    }
  }

  /** A failing pack that is not harmless is caught out at once. */
  lemma HarmShows(d0: Doc, s: State, e: Step)
    requires Tidy(s) && Enabled(s, e) && Honest(d0, s) && !Guarded(s, e)
    ensures !Honest(d0, Next(s, e))
  {
    hide Applied, Sound, Fails, Alternates, Harmless;
    HarmlessIffSilent(s.doc, s.self, e.changes);
    var c :| c != s.self && Shown(Applied(s.doc, Sound(e.changes)), c) != Shown(s.doc, c);
    assert Stream(Next(s, e)) == Stream(s);
    assert InStep(d0, s, c) && !InStep(d0, Next(s, e), c);
  }

  /** A document as a reset leaves it, with nothing published since. */
  function Fresh(self: Client, d: Doc): (r: State) {
    State(self, d, false, [], [], [])
  }

  lemma FreshHonest(self: Client, d: Doc)
    ensures Tidy(Fresh(self, d)) && Honest(d, Fresh(self, d))
  {
    assert Stream(Fresh(self, d)) == [];
  }

  /**
   Over whole runs between resets: the events and the state agree in every state of a run exactly
   when every pack that fails in it is harmless.
   */
  lemma HonestIffNothingLost(self: Client, d: Doc, run: seq<Step>)
    requires Legal(Fresh(self, d), run)
    ensures (forall n :: 0 <= n <= |run| ==> Honest(d, StateAt(Fresh(self, d), run, n)))
       <==> NothingLost(Fresh(self, d), run)
  {
    var s := Fresh(self, d);
    FreshHonest(self, d);
    hide Honest, Guarded, Next, Enabled, Tidy;
    if NothingLost(s, run) {
      forall n | 0 <= n <= |run|
        ensures Honest(d, StateAt(s, run, n))
      {
        RunHonest(d, s, run, n);
      }
    } else {
      var n :| 0 <= n < |run| && !Guarded(StateAt(s, run, n), run[n]);
      StepAt(s, run, n);
      RunTidy(s, run, n);
      if Honest(d, StateAt(s, run, n)) {
        HarmShows(d, StateAt(s, run, n), run[n]);
      }
      assert !Honest(d, StateAt(s, run, n)) || !Honest(d, StateAt(s, run, n + 1));
    }
  }

  /**
   Between resets, however the goroutines interleave: replaying the events received, those in the
   channel and those about to be sent, in this order, from what was visible at the reset, gives
   the presence of every other client exactly as the document shows it.
   */
  lemma ReplayShows(self: Client, d: Doc, run: seq<Step>, c: Client)
    requires Legal(Fresh(self, d), run) && NothingLost(Fresh(self, d), run) && c != self
    ensures
      var s := Play(Fresh(self, d), run);
      && Replay(Shown(d, c), s.received + s.channel + s.outbox, c) == Shown(s.doc, c)
      && |s.channel| <= 1
      && (!s.publishing ==> Replay(Shown(d, c), s.received + s.channel, c) == Shown(s.doc, c))
  {
    RunInStep(self, d, run, c);
    QuietStream(Play(Fresh(self, d), run));
  }

  lemma RunInStep(self: Client, d: Doc, run: seq<Step>, c: Client)
    requires Legal(Fresh(self, d), run) && NothingLost(Fresh(self, d), run) && c != self
    ensures Tidy(Play(Fresh(self, d), run)) && InStep(d, Play(Fresh(self, d), run), c)
  {
    hide InStep, NothingLost, Tidy;
    FreshHonest(self, d);
    RunHonest(d, Fresh(self, d), run, |run|);
    RunTidy(Fresh(self, d), run, |run|);
    LastState(Fresh(self, d), run);
  }

  // ---- The shape of one client's events ----

  function KindsOf(events: seq<Event>, c: Client): (r: seq<Kind>) {
    if events == [] then []
    else (if events[0].client == c then [events[0].kind] else []) + KindsOf(events[1..], c)
  }

  ghost predicate Steady(kinds: seq<Kind>, from: int, to: int)
    requires 0 <= from <= to <= |kinds|
  {
    forall i :: from <= i < to ==> kinds[i] == PresenceChanged
  }

  /** Any number of rounds of Watched, PresenceChanged*, Unwatched, the last of which may be unfinished. */
  ghost predicate Rounds(kinds: seq<Kind>)
    decreases |kinds|
  {
    kinds == [] || (kinds[0] == Watched && Stay(kinds[1..]))
  }

  /** The rest of a round that has begun, and further rounds. */
  ghost predicate Stay(kinds: seq<Kind>)
    decreases |kinds|
  {
    exists n :: 0 <= n <= |kinds| && Steady(kinds, 0, n)
      && (n == |kinds| || (kinds[n] == Unwatched && Rounds(kinds[n + 1..])))
  }

  lemma StayOn(kinds: seq<Kind>)
    requires kinds != [] && kinds[0] == PresenceChanged && Stay(kinds[1..])
    ensures Stay(kinds)
  {
    var rest := kinds[1..];
    var n :| 0 <= n <= |rest| && Steady(rest, 0, n) && (n == |rest| || (rest[n] == Unwatched && Rounds(rest[n + 1..])));
    assert forall i :: 1 <= i < n + 1 ==> kinds[i] == rest[i - 1];
    assert Steady(kinds, 0, n + 1);
    if n < |rest| {
      assert kinds[n + 1 + 1..] == rest[n + 1..];
    }
  }

  /** Alternating events make complete rounds. */
  lemma {:induction false} AlternatesInRounds(on: bool, events: seq<Event>, c: Client, end: bool)
    requires Alternates(on, events, c, end)
    ensures if on then Stay(KindsOf(events, c)) else Rounds(KindsOf(events, c))
    decreases |events|
  {
    var kinds := KindsOf(events, c);
    if events == [] {
      assert Steady(kinds, 0, 0);
    } else if events[0].client != c {
      AlternatesInRounds(on, events[1..], c, end);
      assert kinds == KindsOf(events[1..], c);
    } else {
      AlternatesInRounds(events[0].kind != Unwatched, events[1..], c, end);
      assert kinds[1..] == KindsOf(events[1..], c);
      if events[0].kind == PresenceChanged {
        StayOn(kinds);
      } else if on {
        assert Steady(kinds, 0, 0) && kinds[0 + 1..] == kinds[1..];
      }
    }
  }

  lemma {:induction false} AlternatesPrefix(on: bool, a: seq<Event>, b: seq<Event>, c: Client, end: bool)
      returns (mid: bool)
    requires Alternates(on, a + b, c, end)
    ensures Alternates(on, a, c, mid)
    decreases |a|
  {
    if a == [] {
      mid := on;
    } else {
      assert (a + b)[1..] == a[1..] + b;
      mid := AlternatesPrefix(if a[0].client != c then on else a[0].kind != Unwatched, a[1..], b, c, end);
    }
  }

  /**
   What the application receives of a client that was not visible at the reset is a prefix
   of (Watched PresenceChanged* Unwatched)*; for one that was visible the first round has
   begun already.
   */
  lemma EventsInRounds(self: Client, d: Doc, run: seq<Step>, c: Client)
    requires Legal(Fresh(self, d), run) && NothingLost(Fresh(self, d), run) && c != self
    ensures
      var kinds := KindsOf(Play(Fresh(self, d), run).received, c);
      if Shown(d, c).Some? then Stay(kinds) else Rounds(kinds)
  {
    RunInStep(self, d, run, c);
    var s := Play(Fresh(self, d), run);
    var on := Shown(d, c).Some?;
    assert Stream(s) == s.received + (s.channel + s.outbox);
    var mid := AlternatesPrefix(on, s.received, s.channel + s.outbox, c, Shown(s.doc, c).Some?);
    AlternatesInRounds(on, s.received, c, mid);
  }

  // ---- A pack that does harm ----

  lemma Played(s: State, e: Step, rest: seq<Step>)
    requires Enabled(s, e) && Legal(Next(s, e), rest)
    ensures Legal(s, [e] + rest) && Play(s, [e] + rest) == Play(Next(s, e), rest)
  {
    assert ([e] + rest)[1..] == rest;
  }

  const ONLINE := Doc(map[], {1})
  const VISIBLE := Doc(map[1 := map[]], {1})
  const BAD := [Change(1, Some(Put(map[])), false), Change(1, None, true)]
  const GOOD := [Change(1, Some(Put(map[5 := 6])), false)]
  const LATE := Event(PresenceChanged, 1, Some(map[5 := 6]))

  lemma BadPack()
    ensures Fails(BAD) && Applied(ONLINE, Sound(BAD)) == VISIBLE
  {
    assert Failing(BAD, 1) == 1 && Failing(BAD, 0) == 1;
    assert Sound(BAD) == [BAD[0]] && [BAD[0]][1..] == [];
    assert Applied(ONLINE, [BAD[0]]) == Applied(Applied1(ONLINE, BAD[0]), []);
  }

  lemma GoodPack() returns (d: Doc)
    ensures !Fails(GOOD) && Applied(VISIBLE, Sound(GOOD)) == d && Produced(VISIBLE, GOOD) == [LATE]
  {
    assert Failing(GOOD, 1) == 1 && Failing(GOOD, 0) == 1;
    assert Sound(GOOD) == GOOD && GOOD[1..] == [];
    d := Applied1(VISIBLE, GOOD[0]);
    assert Applied(VISIBLE, GOOD) == Applied(d, []) && Produced(d, []) == [];
  }

  /** A pack that makes client 1 visible and then fails: the Watched event is lost and the next one is out of place. */
  lemma LostWatch(run: seq<Step>)
    requires run == [Apply(BAD)] + ([Release] + ([Apply(GOOD)] + ([Send] + ([Receive] + []))))
    ensures Shown(Next(Fresh(0, ONLINE), Apply(BAD)).doc, 1).Some? && Stream(Next(Fresh(0, ONLINE), Apply(BAD))) == []
    ensures Legal(Fresh(0, ONLINE), run) && Play(Fresh(0, ONLINE), run).received == [LATE]
    ensures !Harmless(ONLINE, 0, BAD)
  {
    hide Applied, Produced, Sound, Fails, Play, Legal, Harmless;
    BadPack();
    HarmlessIffSilent(ONLINE, 0, BAD);
    assert Shown(VISIBLE, 1) != Shown(ONLINE, 1);
    var d := GoodPack();
    var s1 := State(0, VISIBLE, true, [], [], []);
    var s2 := s1.(publishing := false);
    var s3 := State(0, d, true, [LATE], [], []);
    var s4 := State(0, d, true, [], [LATE], []);
    var s5 := State(0, d, true, [], [], [LATE]);
    assert Next(Fresh(0, ONLINE), Apply(BAD)) == s1 && Next(s1, Release) == s2 && Next(s2, Apply(GOOD)) == s3;
    assert Next(s3, Send) == s4 && Next(s4, Receive) == s5;
    Idle(s5);
    Played(s4, Receive, []);
    Played(s3, Send, [Receive] + []);
    Played(s2, Apply(GOOD), [Send] + ([Receive] + []));
    Played(s1, Release, [Apply(GOOD)] + ([Send] + ([Receive] + [])));
    Played(Fresh(0, ONLINE), Apply(BAD), [Release] + ([Apply(GOOD)] + ([Send] + ([Receive] + []))));
  }

  lemma Idle(s: State)
    ensures Legal(s, []) && Play(s, []) == s
  {
  }

  // ---- The document as the program keeps it ----

  /** The two fields a presence event depends on, as the methods update them. */
  class Document {
    var presences: map<Client, Data>
    var online: set<Client>

    function Now(): (r: Doc)
      reads this
    {
      Doc(presences, online)
    }

    constructor ()
      ensures Now() == Doc(map[], {})
    {
      presences, online := map[], {};
    }

    /** Applies changes one at a time; the events of a sequence in which one fails are dropped. */
    method ApplyChanges(changes: seq<Change>) returns (events: seq<Event>, ok: bool)
      modifies this
      ensures ok <==> !Fails(changes)
      ensures Now() == Applied(old(Now()), Sound(changes)) && events == Reported(old(Now()), changes)
      ensures ok ==> forall c :: Tells(old(Now()), events, Now(), c)
      ensures forall c :: Settled(old(Now()), Sound(changes), Now(), c)
    {
      hide Applied, Produced, Applied1, Produced1, Tells, Settled;
      events := [];
      var i := 0;
      ghost var d := Now();
      NoneApplied(d, changes);
      while i < |changes|
        invariant 0 <= i <= Failing(changes, 0)
        invariant Now() == Applied(d, changes[..i]) && events == Produced(d, changes[..i])
      {
        var x := changes[i];
        if x.fails {
          AllSettled(d, Sound(changes));
          return [], false;
        }
        OneMore(d, changes, i);
        var more := Apply1(x);
        events := events + more;
        i := i + 1;
      }
      SoundAll(changes);
      AllSettled(d, changes);
      assert changes[..i] == changes;
      ok := true;
      forall c {
        ProducedTells(d, changes, c);
      }
    }

    method Apply1(x: Change) returns (events: seq<Event>)
      modifies this
      ensures Now() == Applied1(old(Now()), x) && events == Produced1(old(Now()), x)
    {
      events := [];
      if x.presence.Some? {
        var before := Now();
        Execute(x.actor, x.presence.value);
        events := Reconcile(before, Now(), x.actor);
      }
    }

    method Execute(c: Client, p: PresenceChange)
      modifies this
      ensures Now() == Executed(old(Now()), c, p)
    {
      match p
      case Clear =>
        presences := presences - {c};
        online := online - {c};
      case Put(data) => presences := presences[c := data];
      case Patch(data, removed) =>
        var merged := if c in presences then presences[c] else map[];
        merged := merged - removed;
        merged := merged + data;
        presences := presences[c := merged];
    }

    method AddOnlineClientAndReconcile(c: Client) returns (events: seq<Event>)
      modifies this`online
      ensures online == old(online) + {c} && presences == old(presences)
      ensures Now() == Joined(old(Now()), c) && events == Reconcile(old(Now()), Now(), c)
      ensures forall a :: Tells(old(Now()), events, Now(), a)
    {
      var before := Now();
      online := online + {c};
      events := Reconcile(before, Now(), c);
      forall a {
        ReconcileTells(before, Now(), c, a);
      }
    }

    method RemoveOnlineClientAndReconcile(c: Client) returns (events: seq<Event>)
      modifies this`online
      ensures online == old(online) - {c} && presences == old(presences)
      ensures Now() == Parted(old(Now()), c) && events == Reconcile(old(Now()), Now(), c)
      ensures forall a :: Tells(old(Now()), events, Now(), a)
    {
      var before := Now();
      online := online - {c};
      events := Reconcile(before, Now(), c);
      forall a {
        ReconcileTells(before, Now(), c, a);
      }
    }

    /** The presences of the clients that are visible. */
    method Presences() returns (m: map<Client, Data>)
      ensures forall c :: if c in m then Shown(Now(), c) == Some(m[c]) else Shown(Now(), c) == None
    {
      m := map[];
      var rest := online;
      while rest != {}
        invariant rest <= online
        invariant forall c :: c in m ==> Shown(Now(), c) == Some(m[c])
        invariant forall c :: c in online - rest && c in presences ==> c in m
        decreases |rest|
      {
        assert (forall x :: x !in rest) ==> rest == {};
        var c :| c in rest;
        rest := rest - {c};
        if c in presences {
          m := m[c := presences[c]];
        }
      }
    }
  }

  lemma AllSettled(d: Doc, changes: seq<Change>)
    ensures forall c :: Settled(d, changes, Applied(d, changes), c)
  {
    hide Settled;
    forall c {
      AppliedSettles(d, changes, c);
    }
  }

  lemma NoneApplied(d: Doc, changes: seq<Change>)
    ensures Applied(d, changes[..0]) == d && Produced(d, changes[..0]) == []
  {
  }

  lemma OneMore(d: Doc, changes: seq<Change>, i: nat)
    requires i < |changes|
    ensures Applied(d, changes[..i + 1]) == Applied1(Applied(d, changes[..i]), changes[i])
    ensures Produced(d, changes[..i + 1])
      == Produced(d, changes[..i]) + Produced1(Applied(d, changes[..i]), changes[i])
  {
    assert changes[..i + 1] == changes[..i] + [changes[i]];
    AppliedLast(d, changes[..i], changes[i]);
  }

  lemma {:induction false} AppliedLast(d: Doc, changes: seq<Change>, x: Change)
    ensures Applied(d, changes + [x]) == Applied1(Applied(d, changes), x)
    ensures Produced(d, changes + [x]) == Produced(d, changes) + Produced1(Applied(d, changes), x)
    decreases |changes|
  {
    hide Applied1, Produced1;
    var longer := changes + [x];
    if changes == [] {
      assert longer[0] == x && longer[1..] == [];
      assert Produced(Applied1(d, x), []) == [] && Applied(Applied1(d, x), longer[1..]) == Applied1(d, x);
    } else {
      assert longer[0] == changes[0] && longer[1..] == changes[1..] + [x];
      AppliedLast(Applied1(d, changes[0]), changes[1..], x);
    }
  }
}
