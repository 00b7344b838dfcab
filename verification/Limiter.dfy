/**
 The debouncing rate limiter (pkg/limit): one single-token bucket per key, an eviction
 list in order of recency, a background loop that evicts expired entries in batches and
 runs the callback each of them still holds, and a Close that drains what is left.

 What happens under the limiter's mutex is one step. The background loop reads the clock
 before it takes the mutex, so the time it compares with may be older than the entries it
 finds. A callback is known by the number of the call that passed it.
 */
module Limiter {
  datatype Option<T> = None | Some(value: T)

  /** The throttle window, the debouncing time and the number of entries in one batch. */
  datatype Config = Config(window: int, debounce: int, batch: nat)

  /** One call of Allow as it was answered; `callback` says whether it passed one. */
  datatype Call = Call(key: int, time: int, granted: bool, callback: bool)

  datatype Entry = Entry(last: int, expire: int, pending: Option<int>)

  /**
   `order` is the eviction list, most recent first, and `table` the entries by key.
   `seen` is the time the background loop has read for the collection it is about to make.
   `tasks` are the callbacks handed to a goroutine that has not reached them, `runs` those
   that have run. `calls` and `replaced` are history: all calls so far, and for a callback
   that lost its place in an entry the call that took the place.
   */
  datatype State = State(
    clock: int, order: seq<int>, table: map<int, Entry>, seen: Option<int>, draining: bool,
    calls: seq<Call>, replaced: map<int, int>, tasks: multiset<int>, runs: seq<int>)

  datatype Step =
    | Tick(time: int)
    | Allow(key: int, callback: bool)
    | Look
    | Expire
    | RunOne(call: int)
    | Close
    | Drain

  // ---- The operations ----

  predicate Refilled(cfg: Config, e: Entry, now: int) {
    e.last + cfg.window <= now
  }

  /** The first position of the key from `i` on, or the length of the list. */
  function Find(order: seq<int>, k: int, i: nat): (at: nat)
    requires i <= |order|
    ensures i <= at <= |order|
    ensures forall j :: i <= j < at ==> order[j] != k
    ensures at < |order| ==> order[at] == k
    decreases |order| - i
  {
    if i == |order| || order[i] == k then i else Find(order, k, i + 1)
  }

  /** The list without the element of that key. */
  function Without(order: seq<int>, k: int): (r: seq<int>) {
    var at := Find(order, k, 0);
    if at < |order| then order[..at] + order[at + 1..] else order
  }

  function Answer(cfg: Config, s: State, key: int): (r: bool) {
    key in s.table ==> Refilled(cfg, s.table[key], s.clock)
  }

  function Touched(cfg: Config, s: State, key: int, callback: bool): (r: Entry) {
    var granted := Answer(cfg, s, key);
    Entry(
      if granted then s.clock else s.table[key].last,
      s.clock + cfg.window + cfg.debounce,
      if !granted && callback then Some(|s.calls|) else None)
  }

  function Lost(s: State, key: int): (r: map<int, int>) {
    if key in s.table && s.table[key].pending.Some? then s.replaced[s.table[key].pending.value := |s.calls|]
    else s.replaced
  }

  function Called(cfg: Config, s: State, key: int, callback: bool): (r: State) {
    s.(order := [key] + Without(s.order, key),
       table := s.table[key := Touched(cfg, s, key, callback)],
       calls := s.calls + [Call(key, s.clock, Answer(cfg, s, key), callback)],
       replaced := Lost(s, key))
  }

  /** The least recent entry leaves the list and the table; its callback is to be run. */
  function Evicted(s: State): (r: State)
    requires s.order != [] && s.order[|s.order| - 1] in s.table
  {
    var k := s.order[|s.order| - 1];
    var e := s.table[k];
    s.(order := s.order[..|s.order| - 1],
       table := s.table - {k},
       tasks := if e.pending.Some? then s.tasks + multiset{e.pending.value} else s.tasks)
  }

  /** Whether a collection goes on: `now` is the time to compare with, if only expired entries are wanted. */
  predicate Takes(s: State, now: Option<int>) {
    && s.order != []
    && s.order[|s.order| - 1] in s.table
    && (now.Some? ==> s.table[s.order[|s.order| - 1]].expire <= now.value)
  }

  function Collected(s: State, now: Option<int>, n: nat): (r: State)
    decreases n
  {
    if n == 0 || !Takes(s, now) then s else Collected(Evicted(s), now, n - 1)
  }

  predicate Enabled(s: State, e: Step) {
    match e
    case Tick(time) => s.clock <= time
    case Allow(_, _) => true
    case Look => s.seen.None? && !s.draining
    case Expire => s.seen.Some?
    case RunOne(call) => call in s.tasks
    // Close waits for the loop to stop and for every callback handed out so far.
    case Close => s.seen.None? && s.tasks == multiset{} && !s.draining
    case Drain => s.draining && s.order != []
  }

  function Next(cfg: Config, s: State, e: Step): (r: State)
    requires Enabled(s, e)
  {
    match e
    case Tick(time) => s.(clock := time)
    case Allow(key, callback) => Called(cfg, s, key, callback)
    case Look => s.(seen := Some(s.clock))
    case Expire => Collected(s, s.seen, cfg.batch).(seen := None)
    case RunOne(call) => s.(tasks := s.tasks - multiset{call}, runs := s.runs + [call])
    case Close => s.(draining := true)
    case Drain => Collected(s, None, cfg.batch)
  }

  function Start(clock: int): (r: State) {
    State(clock, [], map[], None, false, [], map[], multiset{}, [])
  }

  // ---- The eviction list ----

  ghost predicate Distinct(order: seq<int>) {
    forall i, j :: 0 <= i < j < |order| ==> order[i] != order[j]
  }

  /** List and table hold the same keys, each once. */
  ghost predicate Listed(order: seq<int>, table: map<int, Entry>) {
    && Distinct(order)
    && (forall i :: 0 <= i < |order| ==> order[i] in table)
    && (forall k :: k in table ==> k in order)
  }

  function Expires(table: map<int, Entry>, k: int): (r: int) {
    if k in table then table[k].expire else 0
  }

  /** The most recent entry expires last. */
  ghost predicate Sorted(order: seq<int>, table: map<int, Entry>) {
    forall i, j :: 0 <= i < j < |order| ==> Expires(table, order[j]) <= Expires(table, order[i])
  }

  /** Where an element of the shortened list was before. */
  function Was(order: seq<int>, k: int, i: nat): (r: nat) {
    if i < Find(order, k, 0) then i else i + 1
  }

  lemma WithoutAt(order: seq<int>, k: int, i: nat)
    requires Distinct(order) && i < |Without(order, k)|
    ensures Was(order, k, i) < |order| && Without(order, k)[i] == order[Was(order, k, i)] != k
  {
    hide Distinct;
    var at := Find(order, k, 0);
    if at < |order| {
      var cut := order[..at] + order[at + 1..];
      assert i >= at ==> cut[i] == order[i + 1];
      DistinctAt(order, Was(order, k, i), at);
    }
  }

  lemma DistinctAt(order: seq<int>, i: nat, j: nat)
    requires Distinct(order) && i < |order| && j < |order| && i != j
    ensures order[i] != order[j]
  {
  }

  lemma StillThere(order: seq<int>, k: int, m: int)
    requires m in order && m != k
    ensures m in Without(order, k)
  {
    var at := Find(order, k, 0);
    var i :| 0 <= i < |order| && order[i] == m;
    if i < at < |order| {
      assert Without(order, k)[i] == m;
    } else if at < |order| {
      assert Without(order, k)[i - 1] == m;
    }
  }

  lemma CalledListed(order: seq<int>, table: map<int, Entry>, k: int, e: Entry)
    requires Listed(order, table)
    ensures Listed([k] + Without(order, k), table[k := e])
  {
    hide Without, Find;
    var rest := Without(order, k);
    var after := [k] + rest;
    forall i | 0 <= i < |rest|
      ensures rest[i] in table && rest[i] != k
    {
      WithoutAt(order, k, i);
    }
    forall i, j | 0 <= i < j < |after|
      ensures after[i] != after[j]
    {
      WithoutAt(order, k, j - 1);
      if i > 0 {
        WithoutAt(order, k, i - 1);
      }
    }
    forall m | m in table[k := e]
      ensures m in after
    {
      if m != k {
        StillThere(order, k, m);
      }
    }
  }

  lemma CalledPair(order: seq<int>, table: map<int, Entry>, k: int, e: Entry, i: int, j: int)
    requires Listed(order, table) && Sorted(order, table) && 0 <= i < j <= |Without(order, k)|
    requires forall m :: m in table ==> Expires(table, m) <= e.expire
    ensures
      var after := [k] + Without(order, k);
      Expires(table[k := e], after[j]) <= Expires(table[k := e], after[i])
  {
    hide Without, Find, Listed;
    ListedAt(order, table);
    WithoutAt(order, k, j - 1);
    if i > 0 {
      WithoutAt(order, k, i - 1);
      assert Was(order, k, i - 1) < Was(order, k, j - 1);
    }
  }

  lemma CalledSorted(order: seq<int>, table: map<int, Entry>, k: int, e: Entry)
    requires Listed(order, table) && Sorted(order, table)
    requires forall m :: m in table ==> Expires(table, m) <= e.expire
    ensures Sorted([k] + Without(order, k), table[k := e])
  {
    hide Without, Find, Listed, Expires;
    var after := [k] + Without(order, k);
    forall i, j | 0 <= i < j < |after|
      ensures Expires(table[k := e], after[j]) <= Expires(table[k := e], after[i])
    {
      CalledPair(order, table, k, e, i, j);
    }
  }

  lemma ListedAt(order: seq<int>, table: map<int, Entry>)
    requires Listed(order, table)
    ensures Distinct(order)
    ensures forall i :: 0 <= i < |order| ==> order[i] in table
  {
  }

  lemma EvictedListed(order: seq<int>, table: map<int, Entry>)
    requires Listed(order, table) && Sorted(order, table) && order != []
    ensures Listed(order[..|order| - 1], table - {order[|order| - 1]})
    ensures Sorted(order[..|order| - 1], table - {order[|order| - 1]})
  {
    var less, gone := order[..|order| - 1], order[|order| - 1];
    forall m | m in table - {gone}
      ensures m in less
    {
      var i :| 0 <= i < |order| && order[i] == m;
      assert less[i] == m;
    }
  }

  // ---- The invariant ----

  ghost predicate Timed(cfg: Config, s: State) {
    && (forall k :: k in s.table ==>
          && s.table[k].last <= s.clock
          && s.table[k].expire <= s.clock + cfg.window + cfg.debounce
          && s.table[k].last + cfg.window + cfg.debounce <= s.table[k].expire)
    && (forall i :: 0 <= i < |s.calls| ==> s.calls[i].time <= s.clock)
    && (s.seen.Some? ==> s.seen.value <= s.clock)
  }

  /** Every grant is remembered by its entry, or is a window away. */
  ghost predicate Remembered(cfg: Config, s: State) {
    forall i :: 0 <= i < |s.calls| && s.calls[i].granted ==>
      if s.calls[i].key in s.table then s.calls[i].time <= s.table[s.calls[i].key].last
      else s.draining || s.calls[i].time + cfg.window <= s.clock
  }

  ghost predicate Spaced(cfg: Config, calls: seq<Call>) {
    forall i, j :: 0 <= i < j < |calls| && calls[i].granted && calls[j].granted && calls[i].key == calls[j].key ==>
      calls[i].time + cfg.window <= calls[j].time
  }

  function Ones(b: bool): (r: int) {
    if b then 1 else 0
  }

  predicate Held(s: State, i: int)
    requires 0 <= i < |s.calls|
  {
    s.calls[i].key in s.table && s.table[s.calls[i].key].pending == Some(i)
  }

  /** Where the callback of call `i` is: in an entry, with a goroutine, or among those that ran. */
  function Places(s: State, i: int): (r: int)
    requires 0 <= i < |s.calls|
  {
    Ones(Held(s, i)) + s.tasks[i] + multiset(s.runs)[i]
  }

  predicate Denied(c: Call) {
    !c.granted && c.callback
  }

  ghost predicate Accounted(s: State) {
    && (forall i :: 0 <= i < |s.calls| ==> Places(s, i) == Ones(Denied(s.calls[i]) && i !in s.replaced))
    && (forall k :: k in s.table && s.table[k].pending.Some? ==>
          0 <= s.table[k].pending.value < |s.calls| && s.calls[s.table[k].pending.value].key == k)
    && (forall i :: i in s.tasks || i in multiset(s.runs) ==> 0 <= i < |s.calls|)
  }

  ghost predicate Replacements(s: State) {
    forall i :: i in s.replaced ==>
      0 <= i < s.replaced[i] < |s.calls| && Denied(s.calls[i]) && s.calls[s.replaced[i]].key == s.calls[i].key
  }

  ghost predicate ListOk(s: State) {
    Listed(s.order, s.table) && Sorted(s.order, s.table)
  }

  /** What every step keeps, whatever the configuration. */
  ghost predicate Inv(cfg: Config, s: State) {
    ListOk(s) && Timed(cfg, s) && Accounted(s) && Replacements(s)
  }

  /** What every step keeps until the limiter is closed, given `Guarded`. */
  ghost predicate Throttled(cfg: Config, s: State) {
    Remembered(cfg, s) && (s.draining || Spaced(cfg, s.calls))
  }

  /** An entry cannot be evicted inside the window that it guards. */
  predicate Guarded(cfg: Config) {
    cfg.debounce >= 0 || cfg.window <= 0 || cfg.batch == 0
  }

  // ---- Every step keeps it ----

  lemma CalledTimed(cfg: Config, s: State, key: int, callback: bool)
    requires Timed(cfg, s)
    ensures Timed(cfg, Called(cfg, s, key, callback))
    ensures forall m :: m in s.table ==> Expires(s.table, m) <= Touched(cfg, s, key, callback).expire
  {
  }

  lemma CalledSpaced(cfg: Config, s: State, key: int, callback: bool)
    requires Timed(cfg, s) && Throttled(cfg, s)
    ensures Throttled(cfg, Called(cfg, s, key, callback))
  {
    hide Without;
    var s' := Called(cfg, s, key, callback);
    forall i | 0 <= i < |s.calls| && s.calls[i].granted && s.calls[i].key == key
      ensures s.calls[i].time <= s'.table[key].last
      ensures !s.draining && Answer(cfg, s, key) ==> s.calls[i].time + cfg.window <= s.clock
    {
    }
  }

  lemma CalledPlaces(s: State, cfg: Config, key: int, callback: bool, i: int)
    requires 0 <= i < |s.calls|
    requires key in s.table && s.table[key].pending.Some? ==>
      0 <= s.table[key].pending.value < |s.calls| && s.calls[s.table[key].pending.value].key == key
    requires Places(s, i) == Ones(Denied(s.calls[i]) && i !in s.replaced)
    ensures
      var s' := Called(cfg, s, key, callback);
      Places(s', i) == Ones(Denied(s.calls[i]) && i !in s'.replaced)
  {
    hide Without, Answer, Denied;
    assert Called(cfg, s, key, callback).calls[i] == s.calls[i];
  }

  lemma CalledAccounted(s: State, cfg: Config, key: int, callback: bool)
    requires Accounted(s) && Replacements(s)
    ensures Accounted(Called(cfg, s, key, callback)) && Replacements(Called(cfg, s, key, callback))
  {
    hide Without, Answer;
    var s' := Called(cfg, s, key, callback);
    var n := |s.calls|;
    forall i | 0 <= i < |s'.calls|
      ensures Places(s', i) == Ones(Denied(s'.calls[i]) && i !in s'.replaced)
    {
      if i < n {
        CalledPlaces(s, cfg, key, callback, i);
      } else {
        assert n !in s.tasks && n !in multiset(s.runs) && n !in s.replaced;
      }
    }
  }

  lemma CalledKeeps(cfg: Config, s: State, key: int, callback: bool)
    requires Inv(cfg, s)
    ensures Inv(cfg, Called(cfg, s, key, callback))
  {
    hide Listed, Sorted, Timed, Remembered, Spaced, Accounted, Replacements;
    CalledTimed(cfg, s, key, callback);
    CalledAccounted(s, cfg, key, callback);
    CalledListed(s.order, s.table, key, Touched(cfg, s, key, callback));
    CalledSorted(s.order, s.table, key, Touched(cfg, s, key, callback));
  }

  lemma EvictedAccounted(s: State)
    requires Accounted(s) && Replacements(s) && s.order != [] && s.order[|s.order| - 1] in s.table
    ensures Accounted(Evicted(s)) && Replacements(Evicted(s))
  {
    var s' := Evicted(s);
    forall i | 0 <= i < |s.calls|
      ensures Places(s', i) == Places(s, i)
    {
    }
  }

  lemma EvictedRemembered(cfg: Config, s: State, now: Option<int>)
    requires Timed(cfg, s) && Throttled(cfg, s) && Takes(s, now)
    requires now.Some? ==> now.value <= s.clock && (cfg.debounce >= 0 || cfg.window <= 0)
    requires now.None? ==> s.draining
    ensures Throttled(cfg, Evicted(s))
  {
  }

  lemma EvictedKeeps(cfg: Config, s: State, now: Option<int>)
    requires Inv(cfg, s) && Takes(s, now)
    ensures Inv(cfg, Evicted(s))
  {
    EvictedListed(s.order, s.table);
    hide Listed, Sorted, Accounted, Replacements;
    EvictedAccounted(s);
  }

  lemma {:induction false} CollectedKeeps(cfg: Config, s: State, now: Option<int>, n: nat)
    requires Inv(cfg, s)
    ensures Inv(cfg, Collected(s, now, n))
    decreases n
  {
    hide Inv;
    if n > 0 && Takes(s, now) {
      EvictedKeeps(cfg, s, now);
      CollectedKeeps(cfg, Evicted(s), now, n - 1);
    }
  }

  lemma {:induction false} CollectedThrottled(cfg: Config, s: State, now: Option<int>, n: nat)
    requires Inv(cfg, s) && Throttled(cfg, s)
    requires now.Some? ==> now.value <= s.clock && (cfg.debounce >= 0 || cfg.window <= 0 || n == 0)
    requires now.None? ==> s.draining
    ensures Throttled(cfg, Collected(s, now, n))
    decreases n
  {
    hide ListOk, Timed, Accounted, Replacements, Throttled;
    if n > 0 && Takes(s, now) {
      EvictedKeeps(cfg, s, now);
      EvictedRemembered(cfg, s, now);
      CollectedThrottled(cfg, Evicted(s), now, n - 1);
    }
  }

  lemma SeenKeeps(cfg: Config, s: State, seen: Option<int>)
    requires Inv(cfg, s) && (seen.Some? ==> seen.value <= s.clock)
    ensures Inv(cfg, s.(seen := seen))
  {
    assert forall i :: 0 <= i < |s.calls| ==> Places(s.(seen := seen), i) == Places(s, i);
  }

  lemma TickKeeps(cfg: Config, s: State, time: int)
    requires Inv(cfg, s) && s.clock <= time
    ensures Inv(cfg, s.(clock := time))
  {
    assert forall i :: 0 <= i < |s.calls| ==> Places(s.(clock := time), i) == Places(s, i);
  }

  lemma CloseKeeps(cfg: Config, s: State)
    requires Inv(cfg, s)
    ensures Inv(cfg, s.(draining := true))
  {
    assert forall i :: 0 <= i < |s.calls| ==> Places(s.(draining := true), i) == Places(s, i);
  }

  function Ran(s: State, call: int): (r: State) {
    s.(tasks := s.tasks - multiset{call}, runs := s.runs + [call])
  }

  lemma RunOneKeeps(cfg: Config, s: State, call: int)
    requires Inv(cfg, s) && call in s.tasks
    ensures Inv(cfg, Ran(s, call))
  {
    assert multiset(Ran(s, call).runs) == multiset(s.runs) + multiset{call};
    assert forall i :: 0 <= i < |s.calls| ==> Places(Ran(s, call), i) == Places(s, i);
  }

  lemma StepKeepsInv(cfg: Config, s: State, e: Step)
    requires Inv(cfg, s) && Enabled(s, e)
    ensures Inv(cfg, Next(cfg, s, e))
  {
    match e
    case Tick(time) => TickKeeps(cfg, s, time);
    case Allow(key, callback) => CalledKeeps(cfg, s, key, callback);
    case Look => SeenKeeps(cfg, s, Some(s.clock));
    case Expire =>
      CollectedKeeps(cfg, s, s.seen, cfg.batch);
      SeenKeeps(cfg, Collected(s, s.seen, cfg.batch), None);
    case RunOne(call) => RunOneKeeps(cfg, s, call);
    case Close => CloseKeeps(cfg, s);
    case Drain => CollectedKeeps(cfg, s, None, cfg.batch);
  }

  lemma StepKeepsThrottled(cfg: Config, s: State, e: Step)
    requires Guarded(cfg) && Inv(cfg, s) && Throttled(cfg, s) && Enabled(s, e)
    ensures Throttled(cfg, Next(cfg, s, e))
  {
    hide ListOk, Accounted, Replacements;
    match e
    case Allow(key, callback) => CalledSpaced(cfg, s, key, callback);
    case Expire => CollectedThrottled(cfg, s, s.seen, cfg.batch);
    case Drain => CollectedThrottled(cfg, s, None, cfg.batch);
    case Tick(_) =>
    case Look =>
    case RunOne(_) =>
    case Close =>
  }

  // ---- Whole runs ----

  ghost predicate Legal(cfg: Config, s: State, run: seq<Step>)
    decreases |run|
  {
    run == [] || (Enabled(s, run[0]) && Legal(cfg, Next(cfg, s, run[0]), run[1..]))
  }

  ghost function Play(cfg: Config, s: State, run: seq<Step>): (r: State)
    requires Legal(cfg, s, run)
    decreases |run|
  {
    if run == [] then s else Play(cfg, Next(cfg, s, run[0]), run[1..])
  }

  lemma {:induction false} RunKeepsInv(cfg: Config, s: State, run: seq<Step>)
    requires Inv(cfg, s) && Legal(cfg, s, run)
    ensures Inv(cfg, Play(cfg, s, run))
    ensures Guarded(cfg) && Throttled(cfg, s) ==> Throttled(cfg, Play(cfg, s, run))
    decreases |run|
  {
    hide Inv, Throttled, Guarded, Enabled, Next;
    if run != [] {
      StepKeepsInv(cfg, s, run[0]);
      if Guarded(cfg) && Throttled(cfg, s) {
        StepKeepsThrottled(cfg, s, run[0]);
      }
      RunKeepsInv(cfg, Next(cfg, s, run[0]), run[1..]);
    }
  }

  ghost predicate Reachable(cfg: Config, s: State) {
    exists clock, run :: Legal(cfg, Start(clock), run) && Play(cfg, Start(clock), run) == s
  }

  lemma ReachableInv(cfg: Config, s: State)
    requires Reachable(cfg, s)
    ensures Inv(cfg, s)
    ensures Guarded(cfg) ==> Throttled(cfg, s)
  {
    var clock, run :| Legal(cfg, Start(clock), run) && Play(cfg, Start(clock), run) == s;
    assert Inv(cfg, Start(clock)) && Throttled(cfg, Start(clock));
    RunKeepsInv(cfg, Start(clock), run);
  }

  /**
   Before Close, two grants of one key are at least a window apart, also when the entry
   of the key was evicted and created again between them.
   */
  lemma GrantsSpaced(cfg: Config, s: State, i: int, j: int)
    requires Guarded(cfg) && Reachable(cfg, s) && !s.draining
    requires 0 <= i < j < |s.calls| && s.calls[i].granted && s.calls[j].granted && s.calls[i].key == s.calls[j].key
    ensures s.calls[i].time + cfg.window <= s.calls[j].time
  {
    ReachableInv(cfg, s);
  }

  // ---- When a call is granted ----

  /** A granted call of the key at that time. */
  ghost predicate GrantAt(calls: seq<Call>, key: int, time: int, j: int) {
    0 <= j < |calls| && calls[j].granted && calls[j].key == key && calls[j].time == time
  }

  /** The time an entry remembers is that of a grant. */
  ghost predicate Rooted(s: State) {
    forall k :: k in s.table ==> exists j :: GrantAt(s.calls, k, s.table[k].last, j)
  }

  /** An earlier grant of the same key is less than a window old. */
  ghost predicate Throttling(cfg: Config, calls: seq<Call>, i: int, j: int)
    requires 0 <= i < |calls|
  {
    && 0 <= j < i && calls[j].granted && calls[j].key == calls[i].key
    && calls[i].time < calls[j].time + cfg.window
  }

  ghost predicate Justified(cfg: Config, calls: seq<Call>) {
    forall i :: 0 <= i < |calls| && !calls[i].granted ==> exists j :: Throttling(cfg, calls, i, j)
  }

  /** Call `j` is the latest of its key. */
  ghost predicate Latest(calls: seq<Call>, key: int, j: int) {
    0 <= j < |calls| && calls[j].key == key && forall i :: j < i < |calls| ==> calls[i].key != key
  }

  /** An entry expires a window and the debouncing time after the latest call of its key, granted or not. */
  ghost predicate Renewed(cfg: Config, s: State) {
    forall k :: k in s.table ==>
      exists j :: Latest(s.calls, k, j) && s.table[k].expire == s.calls[j].time + cfg.window + cfg.debounce
  }

  ghost predicate Fair(cfg: Config, s: State) {
    Rooted(s) && Renewed(cfg, s) && Justified(cfg, s.calls)
  }

  lemma CalledRenewed(cfg: Config, s: State, key: int, callback: bool)
    requires Renewed(cfg, s)
    ensures Renewed(cfg, Called(cfg, s, key, callback))
  {
    hide Without;
    var s' := Called(cfg, s, key, callback);
    forall k | k in s'.table
      ensures exists j :: Latest(s'.calls, k, j) && s'.table[k].expire == s'.calls[j].time + cfg.window + cfg.debounce
    {
      if k == key {
        assert Latest(s'.calls, k, |s.calls|);
      } else {
        var j :| Latest(s.calls, k, j) && s.table[k].expire == s.calls[j].time + cfg.window + cfg.debounce;
        assert Latest(s'.calls, k, j) && s'.calls[j] == s.calls[j];
      }
    }
  }

  lemma CalledRooted(cfg: Config, s: State, key: int, callback: bool)
    requires Rooted(s)
    ensures Rooted(Called(cfg, s, key, callback))
  {
    hide Without;
    var s' := Called(cfg, s, key, callback);
    forall k | k in s'.table
      ensures exists j :: GrantAt(s'.calls, k, s'.table[k].last, j)
    {
      if k == key && Answer(cfg, s, key) {
        assert GrantAt(s'.calls, k, s.clock, |s.calls|);
      } else {
        var j :| GrantAt(s.calls, k, s.table[k].last, j);
        assert GrantAt(s'.calls, k, s'.table[k].last, j);
      }
    }
  }

  lemma CalledJustified(cfg: Config, s: State, key: int, callback: bool)
    requires Fair(cfg, s)
    ensures Justified(cfg, Called(cfg, s, key, callback).calls)
  {
    hide Without;
    var calls := Called(cfg, s, key, callback).calls;
    forall i | 0 <= i < |calls| && !calls[i].granted
      ensures exists j :: Throttling(cfg, calls, i, j)
    {
      if i < |s.calls| {
        assert calls[i] == s.calls[i];
        var j :| Throttling(cfg, s.calls, i, j);
        assert Throttling(cfg, calls, i, j);
      } else {
        var j :| GrantAt(s.calls, key, s.table[key].last, j);
        assert calls[j] == s.calls[j];
        assert Throttling(cfg, calls, i, j);
      }
    }
  }

  lemma {:induction false} CollectedFair(cfg: Config, s: State, now: Option<int>, n: nat)
    requires Fair(cfg, s)
    ensures Fair(cfg, Collected(s, now, n))
    decreases n
  {
    if n > 0 && Takes(s, now) {
      assert Rooted(Evicted(s)) && Renewed(cfg, Evicted(s));
      CollectedFair(cfg, Evicted(s), now, n - 1);
    }
  }

  lemma StepFair(cfg: Config, s: State, e: Step)
    requires Fair(cfg, s) && Enabled(s, e)
    ensures Fair(cfg, Next(cfg, s, e))
  {
    match e
    case Allow(key, callback) =>
      CalledRooted(cfg, s, key, callback);
      CalledRenewed(cfg, s, key, callback);
      CalledJustified(cfg, s, key, callback);
    case Expire => CollectedFair(cfg, s, s.seen, cfg.batch);
    case Drain => CollectedFair(cfg, s, None, cfg.batch);
    case _ =>
  }

  lemma {:induction false} RunFair(cfg: Config, s: State, run: seq<Step>)
    requires Fair(cfg, s) && Legal(cfg, s, run)
    ensures Fair(cfg, Play(cfg, s, run))
    decreases |run|
  {
    hide Fair, Enabled, Next;
    if run != [] {
      StepFair(cfg, s, run[0]);
      RunFair(cfg, Next(cfg, s, run[0]), run[1..]);
    }
  }

  lemma ReachableFair(cfg: Config, s: State)
    requires Reachable(cfg, s)
    ensures Fair(cfg, s)
  {
    var clock, run :| Legal(cfg, Start(clock), run) && Play(cfg, Start(clock), run) == s;
    assert Fair(cfg, Start(clock));
    RunFair(cfg, Start(clock), run);
  }

  /** In every reachable state an entry expires a window and the debouncing time after the latest call of its key. */
  lemma ExpiresAfterLatest(cfg: Config, s: State, k: int, j: int)
    requires Reachable(cfg, s) && k in s.table && Latest(s.calls, k, j)
    ensures s.table[k].expire == s.calls[j].time + cfg.window + cfg.debounce
  {
    ReachableFair(cfg, s);
    var i :| Latest(s.calls, k, i) && s.table[k].expire == s.calls[i].time + cfg.window + cfg.debounce;
    assert i == j;
  }

  /** In any configuration a call is denied only for a grant of its key that is less than a window old. */
  lemma DeniedForAGrant(cfg: Config, s: State, i: int) returns (j: int)
    requires Reachable(cfg, s) && 0 <= i < |s.calls| && !s.calls[i].granted
    ensures 0 <= j < i && s.calls[j].granted && s.calls[j].key == s.calls[i].key
    ensures s.calls[i].time < s.calls[j].time + cfg.window
  {
    ReachableFair(cfg, s);
    j :| Throttling(cfg, s.calls, i, j);
  }

  /** Before Close a call is granted exactly when no earlier grant of its key is less than a window old. */
  lemma GrantedIff(cfg: Config, s: State, i: int)
    requires Guarded(cfg) && Reachable(cfg, s) && !s.draining && 0 <= i < |s.calls|
    ensures s.calls[i].granted <==>
      forall j :: 0 <= j < i && s.calls[j].granted && s.calls[j].key == s.calls[i].key ==>
        s.calls[j].time + cfg.window <= s.calls[i].time
  {
    if s.calls[i].granted {
      forall j | 0 <= j < i && s.calls[j].granted && s.calls[j].key == s.calls[i].key
        ensures s.calls[j].time + cfg.window <= s.calls[i].time
      {
        GrantsSpaced(cfg, s, j, i);
      }
    } else {
      var j := DeniedForAGrant(cfg, s, i);
    }
  }

  /** A run that grants one key twice inside a window: the entry expires before the window has passed. */
  function EarlyRun(cfg: Config): (r: seq<Step>) {
    [Allow(0, false), Tick(if cfg.window + cfg.debounce > 0 then cfg.window + cfg.debounce else 0),
     Look, Expire, Allow(0, false)]
  }

  function EarlyState(cfg: Config): (r: State) {
    var t := if cfg.window + cfg.debounce > 0 then cfg.window + cfg.debounce else 0;
    State(t, [0], map[0 := Entry(t, t + cfg.window + cfg.debounce, None)], None, false,
          [Call(0, 0, true, false), Call(0, t, true, false)], map[], multiset{}, [])
  }

  lemma Played(cfg: Config, s: State, e: Step, rest: seq<Step>)
    requires Enabled(s, e) && Legal(cfg, Next(cfg, s, e), rest)
    ensures Legal(cfg, s, [e] + rest) && Play(cfg, s, [e] + rest) == Play(cfg, Next(cfg, s, e), rest)
  {
    assert ([e] + rest)[1..] == rest;
  }

  lemma Idle(cfg: Config, s: State)
    ensures Legal(cfg, s, []) && Play(cfg, s, []) == s
  {
  }

  /** The steps of the early run from the first call to the eviction. */
  lemma EarlyEviction(cfg: Config, t: int) returns (s1: State, s4: State)
    requires cfg.batch > 0 && cfg.window + cfg.debounce <= t
    ensures s1 == Called(cfg, Start(0), 0, false) && s4 == Next(cfg, s1.(clock := t, seen := Some(t)), Expire)
    ensures s4 == State(t, [], map[], None, false, [Call(0, 0, true, false)], map[], multiset{}, [])
  {
    s1 := Called(cfg, Start(0), 0, false);
    assert s1.order == [0] && s1.calls == [Call(0, 0, true, false)];
    assert s1.table == map[0 := Entry(0, cfg.window + cfg.debounce, None)];
    var s3 := s1.(clock := t, seen := Some(t));
    assert Takes(s3, s3.seen) && Evicted(s3).order == [] && Evicted(s3).table == map[];
    assert Collected(s3, s3.seen, cfg.batch) == Collected(Evicted(s3), s3.seen, cfg.batch - 1) == Evicted(s3);
    s4 := Next(cfg, s3, Expire);
  }

  lemma EarlyGrant(cfg: Config)
    requires !Guarded(cfg)
    ensures Legal(cfg, Start(0), EarlyRun(cfg)) && Play(cfg, Start(0), EarlyRun(cfg)) == EarlyState(cfg)
    ensures !Spaced(cfg, EarlyState(cfg).calls)
  {
    var t := if cfg.window + cfg.debounce > 0 then cfg.window + cfg.debounce else 0;
    var s1, s4 := EarlyEviction(cfg, t);
    var s5 := EarlyState(cfg);
    assert Next(cfg, s4, Allow(0, false)) == s5 by {
      assert Called(cfg, s4, 0, false).order == [0] && Called(cfg, s4, 0, false).table == s5.table;
    }
    hide Called, Collected, Legal, Play;
    Idle(cfg, s5);
    Played(cfg, s4, Allow(0, false), []);
    Played(cfg, s1.(clock := t, seen := Some(t)), Expire, [Allow(0, false)] + []);
    Played(cfg, s1.(clock := t), Look, [Expire] + ([Allow(0, false)] + []));
    Played(cfg, s1, Tick(t), [Look] + ([Expire] + ([Allow(0, false)] + [])));
    Played(cfg, Start(0), Allow(0, false), [Tick(t)] + ([Look] + ([Expire] + ([Allow(0, false)] + []))));
    assert EarlyRun(cfg) == [Allow(0, false)] + ([Tick(t)] + ([Look] + ([Expire] + ([Allow(0, false)] + []))));
    assert s5.calls[0].time + cfg.window > s5.calls[1].time;
  }

  /** The spacing holds on every run before Close exactly when the configuration is guarded. */
  lemma SpacedIffGuarded(cfg: Config)
    ensures Guarded(cfg) <==> (forall s :: Reachable(cfg, s) && !s.draining ==> Spaced(cfg, s.calls))
  {
    if Guarded(cfg) {
      forall s | Reachable(cfg, s) && !s.draining
        ensures Spaced(cfg, s.calls)
      {
        ReachableInv(cfg, s);
      }
    } else {
      EarlyGrant(cfg);
      assert Reachable(cfg, EarlyState(cfg));
    }
  }

  /** In every reachable state list and table hold the same keys, each once, and the list is sorted by expiry. */
  lemma ListIsSorted(cfg: Config, s: State)
    requires Reachable(cfg, s)
    ensures Listed(s.order, s.table) && |s.order| == |s.table|
    ensures forall i, j :: 0 <= i < j < |s.order| ==> s.table[s.order[j]].expire <= s.table[s.order[i]].expire
  {
    ReachableInv(cfg, s);
    ListedSize(s.order, s.table);
    forall i, j | 0 <= i < j < |s.order|
      ensures s.table[s.order[j]].expire <= s.table[s.order[i]].expire
    {
      assert Expires(s.table, s.order[j]) <= Expires(s.table, s.order[i]);
    }
  }

  lemma {:induction false} ListedSize(order: seq<int>, table: map<int, Entry>)
    requires Listed(order, table)
    ensures |order| == |table|
    decreases |order|
  {
    if order == [] {
      assert forall k :: k !in table;
      assert table == map[];
    } else {
      var k := order[|order| - 1];
      var less := order[..|order| - 1];
      forall m | m in table - {k}
        ensures m in less
      {
        var i :| 0 <= i < |order| && order[i] == m;
        assert less[i] == m;
      }
      ListedSize(less, table - {k});
      assert (table - {k}).Keys == table.Keys - {k};
    }
  }

  // ---- What a collection takes ----

  /**
   A collection takes the entries at the back of the list, expired ones only, at most a
   batch; unless the batch is full no expired entry stays.
   */
  lemma {:induction false} CollectsExpired(s: State, now: int, n: nat)
    requires ListOk(s)
    ensures
      var s' := Collected(s, Some(now), n);
      && ListOk(s') && |s.order| - n <= |s'.order| <= |s.order| && s'.order == s.order[..|s'.order|]
      && (forall k :: k in s'.table ==> k in s.table && s'.table[k] == s.table[k])
      && (forall k :: k in s.table && k !in s'.table ==> s.table[k].expire <= now)
      && (|s'.order| == |s.order| - n || forall k :: k in s'.table ==> now < s'.table[k].expire)
    decreases n
  {
    hide Listed, Sorted, Distinct;
    if n > 0 && Takes(s, Some(now)) {
      EvictedListed(s.order, s.table);
      CollectsExpired(Evicted(s), now, n - 1);
    } else {
      NoneExpired(s, now, n);
    }
  }

  lemma NoneExpired(s: State, now: int, n: nat)
    requires ListOk(s) && (n == 0 || !Takes(s, Some(now)))
    ensures n == 0 || forall k :: k in s.table ==> now < s.table[k].expire
  {
    if n > 0 {
      forall k | k in s.table
        ensures now < s.table[k].expire
      {
        var i :| 0 <= i < |s.order| && s.order[i] == k;
        assert i < |s.order| - 1 ==> Expires(s.table, s.order[|s.order| - 1]) <= Expires(s.table, s.order[i]);
      }
    }
  }

  /** A drain takes a full batch, or everything; with a batch size of zero it takes nothing, so Close would not end. */
  lemma {:induction false} DrainTakes(s: State, n: nat)
    requires ListOk(s)
    ensures |Collected(s, None, n).order| == if n <= |s.order| then |s.order| - n else 0
    decreases n
  {
    if n > 0 && s.order != [] {
      EvictedListed(s.order, s.table);
      DrainTakes(Evicted(s), n - 1);
    }
  }

  lemma {:induction false} CollectedShrinks(s: State, now: Option<int>, n: nat)
    ensures |Collected(s, now, n).order| <= |s.order|
    decreases n
  {
    if n > 0 && Takes(s, now) {
      CollectedShrinks(Evicted(s), now, n - 1);
    }
  }

  function Drains(run: seq<Step>): (n: nat) {
    if run == [] then 0 else (if run[0].Drain? then 1 else 0) + Drains(run[1..])
  }

  function Allows(run: seq<Step>): (n: nat) {
    if run == [] then 0 else (if run[0].Allow? then 1 else 0) + Allows(run[1..])
  }

  lemma DrainsStep(cfg: Config, s: State, e: Step)
    requires Inv(cfg, s) && Enabled(s, e) && cfg.batch > 0
    ensures (if e.Drain? then 1 else 0) + |Next(cfg, s, e).order| <= |s.order| + if e.Allow? then 1 else 0
  {
    match e
    case Allow(key, callback) => assert |Without(s.order, key)| <= |s.order|;
    case Expire => CollectedShrinks(s, s.seen, cfg.batch);
    case Drain => DrainTakes(s, cfg.batch);
    case _ =>
  }

  /**
   Calls may come in while Close drains, but for every positive batch size it goes round no more
   often than there were entries when it began and calls meanwhile.
   */
  lemma {:induction false} DrainsBounded(cfg: Config, s: State, run: seq<Step>)
    requires Inv(cfg, s) && Legal(cfg, s, run) && cfg.batch > 0
    ensures Drains(run) + |Play(cfg, s, run).order| <= |s.order| + Allows(run)
    decreases |run|
  {
    hide Inv, Enabled, Next;
    if run != [] {
      StepKeepsInv(cfg, s, run[0]);
      DrainsStep(cfg, s, run[0]);
      DrainsBounded(cfg, Next(cfg, s, run[0]), run[1..]);
    }
  }

  // ---- What becomes of a callback ----

  /**
   In every reachable state the callback of a denied call has lost its place to a later
   call of the same key and will not run, or it is in exactly one place: in the entry of
   its key, handed out to be run, or run. No other callback is anywhere.
   */
  lemma CallbackFate(cfg: Config, s: State, i: int)
    requires Reachable(cfg, s) && 0 <= i < |s.calls|
    ensures Places(s, i) == Ones(Denied(s.calls[i]) && i !in s.replaced)
    ensures i in s.replaced ==> i < s.replaced[i] < |s.calls| && s.calls[s.replaced[i]].key == s.calls[i].key
  {
    ReachableInv(cfg, s);
  }

  /** The runs only grow and a lost place stays lost. */
  lemma {:induction false} CollectedHistory(s: State, now: Option<int>, n: nat)
    ensures var s' := Collected(s, now, n); s'.runs == s.runs && s'.replaced == s.replaced && s'.calls == s.calls
    decreases n
  {
    if n > 0 && Takes(s, now) {
      CollectedHistory(Evicted(s), now, n - 1);
    }
  }

  lemma StepHistory(cfg: Config, s: State, e: Step)
    requires Inv(cfg, s) && Enabled(s, e)
    ensures s.runs <= Next(cfg, s, e).runs && s.calls <= Next(cfg, s, e).calls
    ensures forall i :: i in s.replaced ==>
            i in Next(cfg, s, e).replaced && Next(cfg, s, e).replaced[i] == s.replaced[i]
  {
    if e.Expire? {
      CollectedHistory(s, s.seen, cfg.batch);
    } else if e.Drain? {
      CollectedHistory(s, None, cfg.batch);
    } else if e.Allow? && e.key in s.table && s.table[e.key].pending.Some? {
      var i := s.table[e.key].pending.value;
      assert Held(s, i) && Places(s, i) == Ones(Denied(s.calls[i]) && i !in s.replaced);
    }
  }

  /** A callback that has run does not run again, and one that lost its place never runs. */
  lemma {:induction false} SettledForever(cfg: Config, s: State, run: seq<Step>, i: int)
    requires Inv(cfg, s) && Legal(cfg, s, run) && 0 <= i < |s.calls|
    requires i in s.replaced || i in s.runs
    ensures multiset(Play(cfg, s, run).runs)[i] == multiset(s.runs)[i] <= 1
    decreases |run|
  {
    hide Next, Enabled;
    assert Places(s, i) == Ones(Denied(s.calls[i]) && i !in s.replaced);
    if run != [] {
      var s' := Next(cfg, s, run[0]);
      StepKeepsInv(cfg, s, run[0]);
      StepHistory(cfg, s, run[0]);
      assert Places(s', i) == Ones(Denied(s'.calls[i]) && i !in s'.replaced);
      assert s'.runs == s.runs + s'.runs[|s.runs|..];
      SettledForever(cfg, s', run[1..], i);
    }
  }

  /** Once nothing is left in the limiter, every denied callback has been replaced or has run exactly once. */
  lemma AllSettled(cfg: Config, s: State, i: int)
    requires Reachable(cfg, s) && s.order == [] && s.tasks == multiset{} && 0 <= i < |s.calls|
    ensures multiset(s.runs)[i] == Ones(Denied(s.calls[i]) && i !in s.replaced)
  {
    ReachableInv(cfg, s);
    assert Places(s, i) == Ones(Denied(s.calls[i]) && i !in s.replaced);
  }

  // ---- The limiter as the program keeps it ----

  /** The list and the table as the methods update them; the rest of the state is history. */
  class Limiter {
    const cfg: Config
    var order: seq<int>
    var table: map<int, Entry>
    ghost var rest: State

    ghost function Now(): (r: State)
      reads this
    {
      rest.(order := order, table := table)
    }

    ghost predicate Valid()
      reads this
    {
      Inv(cfg, Now())
    }

    constructor (cfg: Config, ghost clock: int)
      ensures Valid() && Now() == Start(clock) && this.cfg == cfg
    {
      this.cfg := cfg;
      order, table := [], map[];
      rest := Start(clock);
    }

    /** Answers one call at time `now`; `callback` is the number of the call if it passed one. */
    method Allow(key: int, now: int, callback: Option<int>) returns (allowed: bool)
      requires Valid() && rest.clock <= now
      requires callback.Some? ==> callback.value == |rest.calls|
      modifies this
      ensures Valid() && Now() == Called(cfg, old(Now()).(clock := now), key, callback.Some?)
      ensures allowed == Answer(cfg, old(Now()).(clock := now), key)
    {
      hide Inv, Called, Touched, Without;
      ghost var s := Now().(clock := now);
      TickKeeps(cfg, Now(), now);
      CalledKeeps(cfg, s, key, callback.Some?);
      ghost var after := Called(cfg, s, key, callback.Some?);
      CalledParts(cfg, s, key, callback.Some?);
      allowed := true;
      var last, pending := now, None;
      if key in table {
        allowed := !(now < table[key].last + cfg.window);
        if !allowed {
          last := table[key].last;
          pending := callback;
        }
      }
      order := [key] + Without(order, key);
      table := table[key := Entry(last, now + (cfg.window + cfg.debounce), pending)];
      rest := after;
    }

    /** Takes out the least recent entry and returns the callback it holds. */
    method TakeBack() returns (pending: Option<int>)
      requires Valid() && Takes(Now(), None)
      modifies this
      ensures Valid() && Now() == Evicted(old(Now()))
      ensures rest.tasks == old(rest.tasks) + Offered(pending)
    {
      hide Inv, Evicted;
      EvictedKeeps(cfg, Now(), None);
      EvictedParts(Now());
      ghost var after := Evicted(Now());
      var key := order[|order| - 1];
      pending := table[key].pending;
      order := order[..|order| - 1];
      table := table - {key};
      rest := after;
    }

    /** Takes entries at the back of the list, at most a batch, and returns the callbacks they hold. */
    method CollectEntries(now: Option<int>) returns (expired: seq<int>)
      requires Valid()
      modifies this
      ensures Valid() && Now() == Collected(old(Now()), now, cfg.batch)
      ensures rest.tasks == old(rest.tasks) + multiset(expired)
    {
      hide Inv, Collected, Evicted, Offered;
      expired := [];
      var n := cfg.batch;
      ghost var tasks := rest.tasks;
      assert rest.tasks == tasks + multiset(expired);
      while n > 0
        invariant 0 <= n <= cfg.batch && Valid()
        invariant Collected(Now(), now, n) == Collected(old(Now()), now, cfg.batch)
        invariant rest.tasks == tasks + multiset(expired)
      {
        InvListed(cfg, Now());
        if |order| == 0 || (now.Some? && now.value < table[order[|order| - 1]].expire) {
          break;
        }
        CollectedStep(Now(), now, n);
        var pending := TakeBack();
        expired := Appended(expired, pending, tasks);
        n := n - 1;
      }
      CollectedStop(Now(), now, n);
    }

    /** Every callback handed out runs; afterwards none is left over. */
    ghost method Wait()
      requires Valid()
      modifies this`rest
      ensures Valid() && order == old(order) && table == old(table)
      ensures Now() == old(Now()).(tasks := multiset{}, runs := rest.runs)
    {
      while rest.tasks != multiset{}
        invariant Valid() && order == old(order) && table == old(table)
        invariant Now() == old(Now()).(tasks := rest.tasks, runs := rest.runs)
        decreases |rest.tasks|
      {
        ghost var i := Member(rest.tasks);
        RunOneKeeps(cfg, Now(), i);
        rest := Ran(rest, i);
      }
    }

    /**
     Drains the limiter once the background loop has returned. It ends for every positive
     batch size; then no entry is left and every callback that was denied and not replaced
     has run exactly once.
     */
    method Close()
      requires Valid() && rest.seen.None? && (cfg.batch > 0 || order == [])
      modifies this
      ensures Valid() && order == [] && table == map[] && rest.calls == old(rest.calls)
              && rest.replaced == old(rest.replaced)
      ensures forall i :: 0 <= i < |rest.calls| ==>
        multiset(rest.runs)[i] == Ones(Denied(rest.calls[i]) && i !in rest.replaced)
    {
      hide Inv;
      Wait();
      CloseKeeps(cfg, Now());
      rest := rest.(draining := true);
      while |order| > 0
        invariant Valid() && (cfg.batch > 0 || order == [])
        invariant rest.calls == old(rest.calls) && rest.replaced == old(rest.replaced)
        decreases |order|
      {
        InvListed(cfg, Now());
        DrainTakes(Now(), cfg.batch);
        CollectedHistory(Now(), None, cfg.batch);
        var _ := CollectEntries(None);
      }
      Wait();
      NothingLeft(cfg, Now());
    }
  }

  lemma CalledParts(cfg: Config, s: State, key: int, callback: bool)
    ensures
      var s' := Called(cfg, s, key, callback);
      && s'.order == [key] + Without(s.order, key)
      && s'.table == s.table[key := Entry(
           if Answer(cfg, s, key) then s.clock else s.table[key].last,
           s.clock + (cfg.window + cfg.debounce),
           if !Answer(cfg, s, key) && callback then Some(|s.calls|) else None)]
  {
  }

  lemma CollectedStep(s: State, now: Option<int>, n: nat)
    requires n > 0 && Takes(s, now)
    ensures Collected(s, now, n) == Collected(Evicted(s), now, n - 1)
  {
  }

  function Offered(pending: Option<int>): (r: multiset<int>) {
    if pending.Some? then multiset{pending.value} else multiset{}
  }

  /** A callback there is goes to the end of the list. */
  function Appended(expired: seq<int>, pending: Option<int>, ghost tasks: multiset<int>): (r: seq<int>)
    ensures tasks + multiset(expired) + Offered(pending) == tasks + multiset(r)
  {
    if pending.Some? then expired + [pending.value] else expired
  }

  lemma EvictedParts(s: State)
    requires Takes(s, None)
    ensures
      var k := s.order[|s.order| - 1];
      && Evicted(s).order == s.order[..|s.order| - 1] && Evicted(s).table == s.table - {k}
      && Evicted(s).tasks == s.tasks + Offered(s.table[k].pending)
  {
  }

  lemma CollectedStop(s: State, now: Option<int>, n: nat)
    requires n == 0 || !Takes(s, now)
    ensures Collected(s, now, n) == s
  {
  }

  lemma Member(a: multiset<int>) returns (i: int)
    requires a != multiset{}
    ensures i in a
  {
    assert (forall x :: x !in a) ==> a == multiset{};
    i :| i in a;
  }

  lemma InvListed(cfg: Config, s: State)
    requires Inv(cfg, s)
    ensures ListOk(s) && (s.order != [] ==> s.order[|s.order| - 1] in s.table)
  {
  }

  lemma NothingLeft(cfg: Config, s: State)
    requires Inv(cfg, s) && s.order == [] && s.tasks == multiset{}
    ensures s.table == map[]
    ensures forall i :: 0 <= i < |s.calls| ==> multiset(s.runs)[i] == Ones(Denied(s.calls[i]) && i !in s.replaced)
  {
    assert forall k :: k !in s.table;
    forall i | 0 <= i < |s.calls|
      ensures multiset(s.runs)[i] == Ones(Denied(s.calls[i]) && i !in s.replaced)
    {
      assert Places(s, i) == Ones(Denied(s.calls[i]) && i !in s.replaced);
    }
  }
}
