/**
 Named locks (pkg/locker): a table of counted reader/writer locks, one per name,
 created on first use and deleted when nobody is interested in the name any more.

 A claim is one attempt to take one name, from the moment it is registered in the
 table until it is released or given up; a goroutine that takes several names has
 several claims. What happens under the table's own mutex is one step; taking the
 reader/writer lock happens outside it and is a step of its own, so any number of
 other claims can come and go in between, and the entry of the name can be deleted
 and created again.
 */
module Locker {
  /** Names are only ever compared. */
  type Name = int

  datatype Mode = Reading | Writing

  datatype Claim =
    | Waiting(name: Name, lock: int, mode: Mode, trying: bool)
    | Holding(name: Name, lock: int, mode: Mode)

  /** A lock object: the waiter count beside the state of its reader/writer mutex. */
  datatype Counter = Counter(waiters: int, writer: bool, readers: int)

  /** Lock objects are known by number; `failed` counts the unsuccessful attempts on each. */
  datatype State = State(
    locks: map<Name, int>, counters: map<int, Counter>, next: int, failed: map<int, int>, claims: map<int, Claim>)

  datatype Step =
    | Register(claim: int, name: Name, mode: Mode, trying: bool)
    | Acquire(claim: int)
    | GiveUp(claim: int)
    | Release(claim: int)

  const EMPTY := State(map[], map[], 0, map[], map[])

  // ---- The lock operations, step by step ----

  /** A writer needs the mutex to itself; a reader shares it with readers. */
  predicate CanTake(k: Counter, mode: Mode) {
    !k.writer && (mode == Writing ==> k.readers == 0)
  }

  function Taken(k: Counter, mode: Mode): (r: Counter) {
    if mode == Writing then k.(writer := true) else k.(readers := k.readers + 1)
  }

  /** Releasing undoes taking; a mutex not taken in that mode cannot be released. */
  predicate CanGive(k: Counter, mode: Mode) {
    if mode == Writing then k.writer else k.readers > 0
  }

  function Given(k: Counter, mode: Mode): (r: Counter) {
    if mode == Writing then k.(writer := false) else k.(readers := k.readers - 1)
  }

  /** Only a writer can merely try, and a caller releases only what it holds. */
  predicate Enabled(s: State, e: Step) {
    match e
    case Register(c, _, mode, trying) => c !in s.claims && (trying ==> mode == Writing)
    case Acquire(c) =>
      && c in s.claims && s.claims[c].Waiting?
      && s.claims[c].lock in s.counters && CanTake(s.counters[s.claims[c].lock], s.claims[c].mode)
    case GiveUp(c) => c in s.claims && s.claims[c].Waiting? && s.claims[c].trying
    case Release(c) => c in s.claims && s.claims[c].Holding?
  }

  /** The object the name leads to, or a new one. */
  function Lookup(s: State, name: Name): (r: int) {
    if name in s.locks then s.locks[name] else s.next
  }

  function Counted(s: State, id: int): (r: Counter) {
    if id in s.counters then s.counters[id] else Counter(0, false, 0)
  }

  function Failures(s: State, id: int): (r: int) {
    if id in s.failed then s.failed[id] else 0
  }

  function Registered(s: State, c: int, name: Name, mode: Mode, trying: bool): (r: State) {
    var id := Lookup(s, name);
    var k := Counted(s, id);
    State(
      s.locks[name := id],
      s.counters[id := k.(waiters := k.waiters + 1)],
      if name in s.locks then s.next else s.next + 1,
      s.failed,
      s.claims[c := Waiting(name, id, mode, trying)])
  }

  function Acquired(s: State, c: int): (r: State)
    requires Enabled(s, Acquire(c))
  {
    var claim := s.claims[c];
    s.(counters := s.counters[claim.lock := Taken(s.counters[claim.lock], claim.mode)],
       claims := s.claims[c := Holding(claim.name, claim.lock, claim.mode)])
  }

  /** The count an unsuccessful attempt has added is never taken back. */
  function GivenUp(s: State, c: int): (r: State)
    requires Enabled(s, GiveUp(c))
  {
    var id := s.claims[c].lock;
    s.(failed := s.failed[id := Failures(s, id) + 1], claims := s.claims - {c})
  }

  /** Releasing goes through the table, so it works on whatever object the name leads to now. */
  function Released(s: State, c: int): (r: State)
    requires Enabled(s, Release(c))
  {
    var claim := s.claims[c];
    if claim.name !in s.locks then s
    else
      var id := s.locks[claim.name];
      var k := Given(Counted(s, id), claim.mode);
      var left := k.(waiters := k.waiters - 1);
      s.(counters := s.counters[id := left],
         locks := if left.waiters == 0 then s.locks - {claim.name} else s.locks,
         claims := s.claims - {c})
  }

  function Next(s: State, e: Step): (r: State)
    requires Enabled(s, e)
  {
    match e
    case Register(c, name, mode, trying) => Registered(s, c, name, mode, trying)
    case Acquire(c) => Acquired(s, c)
    case GiveUp(c) => GivenUp(s, c)
    case Release(c) => Released(s, c)
  }

  // ---- The invariant ----

  type Claims = map<int, Claim>

  /** Those waiting for or holding the object. */
  function Users(claims: Claims, id: int): (r: set<int>) {
    set c | c in claims && claims[c].lock == id
  }

  function Holders(claims: Claims, id: int, mode: Mode): (r: set<int>) {
    set c | c in claims && claims[c].Holding? && claims[c].lock == id && claims[c].mode == mode
  }

  function Ones(b: bool): (r: int) {
    if b then 1 else 0
  }

  /** The counter of object `id` agrees with the claims on it and with `f` failed attempts. */
  ghost predicate Agrees(k: Counter, f: int, claims: Claims, id: int) {
    && k.waiters == |Users(claims, id)| + f
    && k.readers == |Holders(claims, id, Reading)|
    && Ones(k.writer) == |Holders(claims, id, Writing)|
    && (k.writer ==> k.readers == 0)
  }

  ghost predicate EntryOk(s: State, n: Name)
    requires n in s.locks
  {
    && s.locks[n] in s.counters
    && s.counters[s.locks[n]].waiters > 0
    && Agrees(s.counters[s.locks[n]], Failures(s, s.locks[n]), s.claims, s.locks[n])
  }

  ghost predicate Mapped(s: State) {
    forall c :: c in s.claims ==> s.claims[c].name in s.locks && s.locks[s.claims[c].name] == s.claims[c].lock
  }

  ghost predicate EntriesOk(s: State) {
    forall n :: n in s.locks ==> EntryOk(s, n)
  }

  ghost predicate Distinct(s: State) {
    forall n, m :: n in s.locks && m in s.locks && s.locks[n] == s.locks[m] ==> n == m
  }

  ghost predicate Numbered(s: State) {
    && (forall i :: i in s.counters ==> i < s.next)
    && (forall i :: i in s.failed ==> i in s.counters)
    && (forall i :: i in s.failed ==> 0 <= s.failed[i])
  }

  ghost predicate Inv(s: State) {
    Mapped(s) && EntriesOk(s) && Distinct(s) && Numbered(s)
  }

  // ---- What one claim adds and takes away ----

  lemma Joined(claims: Claims, c: int, x: Claim, o: int)
    requires c !in claims && x.Waiting?
    ensures Users(claims[c := x], o) == if o == x.lock then Users(claims, o) + {c} else Users(claims, o)
    ensures Holders(claims[c := x], o, Reading) == Holders(claims, o, Reading)
    ensures Holders(claims[c := x], o, Writing) == Holders(claims, o, Writing)
  {
  }

  lemma Left(claims: Claims, c: int, o: int, mode: Mode)
    requires c in claims
    ensures Users(claims - {c}, o) == Users(claims, o) - {c}
    ensures Holders(claims - {c}, o, mode) == Holders(claims, o, mode) - {c}
  {
  }

  lemma Granted(claims: Claims, c: int, o: int, mode: Mode)
    requires c in claims && claims[c].Waiting?
    ensures
      var x := claims[c];
      var after := claims[c := Holding(x.name, x.lock, x.mode)];
      && Users(after, o) == Users(claims, o)
      && Holders(after, o, mode)
         == if o == x.lock && mode == x.mode then Holders(claims, o, mode) + {c} else Holders(claims, o, mode)
  {
  }

  lemma CountUp(a: set<int>, c: int)
    requires c !in a
    ensures |a + {c}| == |a| + 1
  {
  }

  lemma CountDown(a: set<int>, c: int)
    ensures |a - {c}| == if c in a then |a| - 1 else |a|
  {
    if c !in a {
      assert a - {c} == a;
    }
  }

  lemma JoinedAgrees(k: Counter, f: int, claims: Claims, id: int, c: int, x: Claim)
    requires Agrees(k, f, claims, id) && c !in claims && x.Waiting?
    ensures x.lock == id ==> Agrees(k.(waiters := k.waiters + 1), f, claims[c := x], id)
    ensures x.lock != id ==> Agrees(k, f, claims[c := x], id)
  {
    Joined(claims, c, x, id);
    CountUp(Users(claims, id), c);
  }

  lemma GrantedAgrees(k: Counter, f: int, claims: Claims, id: int, c: int)
    requires Agrees(k, f, claims, id) && c in claims && claims[c].Waiting?
    requires claims[c].lock == id ==> CanTake(k, claims[c].mode)
    ensures
      var x := claims[c];
      Agrees(if x.lock == id then Taken(k, x.mode) else k, f, claims[c := Holding(x.name, x.lock, x.mode)], id)
  {
    Granted(claims, c, id, Reading);
    Granted(claims, c, id, Writing);
    CountUp(Holders(claims, id, claims[c].mode), c);
  }

  lemma GivenUpAgrees(k: Counter, f: int, claims: Claims, id: int, c: int)
    requires Agrees(k, f, claims, id) && c in claims && claims[c].Waiting?
    ensures Agrees(k, if claims[c].lock == id then f + 1 else f, claims - {c}, id)
  {
    Left(claims, c, id, Reading);
    Left(claims, c, id, Writing);
    CountDown(Users(claims, id), c);
    CountDown(Holders(claims, id, Reading), c);
    CountDown(Holders(claims, id, Writing), c);
  }

  function Dropped(k: Counter, mode: Mode): (r: Counter) {
    Given(k, mode).(waiters := k.waiters - 1)
  }

  lemma ReleasedAgrees(k: Counter, f: int, claims: Claims, id: int, c: int)
    requires Agrees(k, f, claims, id) && c in claims && claims[c].Holding?
    ensures claims[c].lock == id ==> CanGive(k, claims[c].mode)
    ensures Agrees(if claims[c].lock == id then Dropped(k, claims[c].mode) else k, f, claims - {c}, id)
  {
    Left(claims, c, id, Reading);
    Left(claims, c, id, Writing);
    CountDown(Users(claims, id), c);
    CountDown(Holders(claims, id, Reading), c);
    CountDown(Holders(claims, id, Writing), c);
  }

  // ---- Every step keeps the invariant ----

  /** A claim uses no object but the one its name leads to. */
  lemma UsersShare(s: State, n: Name, c: int)
    requires Mapped(s) && Distinct(s) && n in s.locks && c in s.claims
    ensures s.claims[c].lock == s.locks[n] <==> s.claims[c].name == n
  {
  }

  lemma FreshUnused(s: State)
    requires Inv(s)
    ensures s.next !in s.counters && s.next !in s.failed
    ensures forall n :: n in s.locks ==> s.locks[n] != s.next
    ensures Agrees(Counter(0, false, 0), 0, s.claims, s.next)
  {
    forall n | n in s.locks
      ensures s.locks[n] != s.next
    {
      assert EntryOk(s, n);
    }
    forall c | c in s.claims
      ensures s.claims[c].lock != s.next
    {
      assert s.locks[s.claims[c].name] == s.claims[c].lock;
    }
    assert Users(s.claims, s.next) == {};
    assert Holders(s.claims, s.next, Reading) == {};
    assert Holders(s.claims, s.next, Writing) == {};
  }

  lemma RegisterEntry(s: State, c: int, name: Name, mode: Mode, trying: bool, n: Name)
    requires Inv(s) && Enabled(s, Register(c, name, mode, trying)) && n in Registered(s, c, name, mode, trying).locks
    ensures EntryOk(Registered(s, c, name, mode, trying), n)
  {
    hide Agrees, Users, Holders;
    var id := Lookup(s, name);
    FreshUnused(s);
    assert n in s.locks ==> EntryOk(s, n);
    var o := if n in s.locks then s.locks[n] else id;
    JoinedAgrees(Counted(s, o), Failures(s, o), s.claims, o, c, Waiting(name, id, mode, trying));
    Exceeds(Counted(s, o), Failures(s, o), s.claims, o);
  }

  lemma Exceeds(k: Counter, f: int, claims: Claims, id: int)
    requires Agrees(k, f, claims, id)
    ensures k.waiters >= f
  {
  }

  lemma RegisterKeeps(s: State, c: int, name: Name, mode: Mode, trying: bool)
    requires Inv(s) && Enabled(s, Register(c, name, mode, trying))
    ensures Inv(Registered(s, c, name, mode, trying))
  {
    hide Agrees, EntryOk;
    var s' := Registered(s, c, name, mode, trying);
    FreshUnused(s);
    forall n | n in s'.locks
      ensures EntryOk(s', n)
    {
      RegisterEntry(s, c, name, mode, trying, n);
    }
    assert name in s.locks ==> s.locks[name] in s.counters by {
      if name in s.locks {
        EntryAt(s, name);
      }
    }
  }

  lemma EntryAt(s: State, n: Name)
    requires EntriesOk(s) && n in s.locks
    ensures s.locks[n] in s.counters && s.counters[s.locks[n]].waiters > 0
    ensures Agrees(s.counters[s.locks[n]], Failures(s, s.locks[n]), s.claims, s.locks[n])
  {
    assert EntryOk(s, n);
  }

  lemma AcquireKeeps(s: State, c: int)
    requires Inv(s) && Enabled(s, Acquire(c))
    ensures Inv(Acquired(s, c))
  {
    hide Agrees;
    var s' := Acquired(s, c);
    forall n | n in s'.locks
      ensures EntryOk(s', n)
    {
      EntryAt(s, n);
      GrantedAgrees(s.counters[s.locks[n]], Failures(s, s.locks[n]), s.claims, s.locks[n], c);
    }
  }

  lemma GiveUpKeeps(s: State, c: int)
    requires Inv(s) && Enabled(s, GiveUp(c))
    ensures Inv(GivenUp(s, c))
  {
    hide Agrees;
    var s' := GivenUp(s, c);
    EntryAt(s, s.claims[c].name);
    forall n | n in s'.locks
      ensures EntryOk(s', n)
    {
      EntryAt(s, n);
      GivenUpAgrees(s.counters[s.locks[n]], Failures(s, s.locks[n]), s.claims, s.locks[n], c);
    }
  }

  lemma ReleaseAgrees(s: State, c: int, n: Name)
    requires Inv(s) && Enabled(s, Release(c)) && n in s.locks
    ensures
      var s' := Released(s, c);
      && s.locks[n] in s'.counters
      && Agrees(s'.counters[s.locks[n]], Failures(s', s.locks[n]), s'.claims, s.locks[n])
      && (n != s.claims[c].name ==> s'.counters[s.locks[n]] == s.counters[s.locks[n]])
  {
    hide Agrees;
    EntryAt(s, n);
    EntryAt(s, s.claims[c].name);
    ReleasedAgrees(s.counters[s.locks[n]], Failures(s, s.locks[n]), s.claims, s.locks[n], c);
    UsersShare(s, n, c);
  }

  lemma UsersCounted(k: Counter, f: int, claims: Claims, id: int, d: int)
    requires Agrees(k, f, claims, id) && d in claims && claims[d].lock == id && f >= 0
    ensures k.waiters > 0
  {
    assert d in Users(claims, id);
  }

  lemma ReleaseKeeps(s: State, c: int)
    requires Inv(s) && Enabled(s, Release(c))
    ensures Inv(Released(s, c))
  {
    hide Agrees;
    var s' := Released(s, c);
    var name := s.claims[c].name;
    EntryAt(s, name);
    ReleaseAgrees(s, c, name);
    Exceeds(s'.counters[s.locks[name]], Failures(s', s.locks[name]), s'.claims, s.locks[name]);
    forall n | n in s'.locks
      ensures EntryOk(s', n)
    {
      EntryAt(s, n);
      ReleaseAgrees(s, c, n);
    }
    forall d | d in s'.claims
      ensures s'.claims[d].name in s'.locks && s'.locks[s'.claims[d].name] == s'.claims[d].lock
    {
      if s.claims[d].name == name {
        UsersCounted(s'.counters[s.locks[name]], Failures(s', s.locks[name]), s'.claims, s.locks[name], d);
      }
    }
  }

  lemma StepKeepsInv(s: State, e: Step)
    requires Inv(s) && Enabled(s, e)
    ensures Inv(Next(s, e))
  {
    hide Inv;
    match e
    case Register(c, name, mode, trying) => RegisterKeeps(s, c, name, mode, trying);
    case Acquire(c) => AcquireKeeps(s, c);
    case GiveUp(c) => GiveUpKeeps(s, c);
    case Release(c) => ReleaseKeeps(s, c);
  }

  // ---- Whole runs ----

  ghost predicate Legal(s: State, run: seq<Step>)
    decreases |run|
  {
    run == [] || (Enabled(s, run[0]) && Legal(Next(s, run[0]), run[1..]))
  }

  ghost function Play(s: State, run: seq<Step>): (r: State)
    requires Legal(s, run)
    decreases |run|
  {
    if run == [] then s else Play(Next(s, run[0]), run[1..])
  }

  lemma {:induction false} RunKeepsInv(s: State, run: seq<Step>)
    requires Inv(s) && Legal(s, run)
    ensures Inv(Play(s, run))
    decreases |run|
  {
    hide Inv;
    if run != [] {
      StepKeepsInv(s, run[0]);
      RunKeepsInv(Next(s, run[0]), run[1..]);
    }
  }

  lemma EmptyInv()
    ensures Inv(EMPTY)
  {
  }

  /**
   In every reachable state all claims on one name, waiting or holding, are on one
   lock object, and it is the one the table holds for that name: an entry is never
   replaced while anybody still relies on it.
   */
  lemma OneLockPerName(run: seq<Step>, c: int, d: int)
    requires Legal(EMPTY, run)
    requires c in Play(EMPTY, run).claims && d in Play(EMPTY, run).claims
    ensures
      var s := Play(EMPTY, run);
      && s.claims[c].name in s.locks && s.locks[s.claims[c].name] == s.claims[c].lock
      && (s.claims[c].name == s.claims[d].name <==> s.claims[c].lock == s.claims[d].lock)
  {
    EmptyInv();
    RunKeepsInv(EMPTY, run);
    UsersShare(Play(EMPTY, run), Play(EMPTY, run).claims[c].name, d);
  }

  lemma AtMostOne<T>(a: set<T>, x: T, y: T)
    requires |a| <= 1 && x in a && y in a
    ensures x == y
  {
    assert |a - {x}| == 0;
    assert y !in a - {x};
  }

  lemma WriterAlone(s: State, c: int, d: int)
    requires Inv(s) && c in s.claims && d in s.claims && c != d
    requires s.claims[c].Holding? && s.claims[c].mode == Writing && s.claims[d].Holding?
    ensures s.claims[c].name != s.claims[d].name
  {
    var id := s.claims[c].lock;
    EntryAt(s, s.claims[c].name);
    assert c in Holders(s.claims, id, Writing);
    if s.claims[d].lock == id && s.claims[d].mode == Writing {
      AtMostOne(Holders(s.claims, id, Writing), c, d);
    }
    assert d !in Holders(s.claims, id, Reading);
  }

  /**
   Exclusion by name, in every reachable state: while one claim holds a name for
   writing no other claim holds that name in either mode, however often the entry
   has been deleted and created again.
   */
  lemma Exclusion(run: seq<Step>, c: int, d: int)
    requires Legal(EMPTY, run)
    requires c in Play(EMPTY, run).claims && d in Play(EMPTY, run).claims && c != d
    requires Play(EMPTY, run).claims[c].Holding? && Play(EMPTY, run).claims[d].Holding?
    requires Play(EMPTY, run).claims[c].mode == Writing
    ensures Play(EMPTY, run).claims[c].name != Play(EMPTY, run).claims[d].name
  {
    EmptyInv();
    RunKeepsInv(EMPTY, run);
    WriterAlone(Play(EMPTY, run), c, d);
  }

  /**
   When a waiting claim can take its lock, in every reachable state: a reader exactly while nobody
   holds the name for writing, so that readers share it, and a writer exactly while nobody holds it.
   */
  lemma AcquireIff(run: seq<Step>, c: int)
    requires Legal(EMPTY, run) && c in Play(EMPTY, run).claims && Play(EMPTY, run).claims[c].Waiting?
    ensures
      var s := Play(EMPTY, run);
      var x := s.claims[c];
      Enabled(s, Acquire(c)) <==>
        forall d :: d in s.claims && s.claims[d].Holding? && s.claims[d].name == x.name ==>
          x.mode == Reading && s.claims[d].mode == Reading
  {
    EmptyInv();
    RunKeepsInv(EMPTY, run);
    TakesIff(Play(EMPTY, run), c);
  }

  lemma TakesIff(s: State, c: int)
    requires Inv(s) && c in s.claims && s.claims[c].Waiting?
    ensures
      var x := s.claims[c];
      Enabled(s, Acquire(c)) <==>
        forall d :: d in s.claims && s.claims[d].Holding? && s.claims[d].name == x.name ==>
          x.mode == Reading && s.claims[d].mode == Reading
  {
    var x := s.claims[c];
    EntryAt(s, x.name);
    var k := s.counters[x.lock];
    assert k.writer <==> Holders(s.claims, x.lock, Writing) != {};
    assert k.readers != 0 <==> Holders(s.claims, x.lock, Reading) != {};
    forall d | d in s.claims && s.claims[d].Holding?
      ensures s.claims[d].name == x.name <==> d in Holders(s.claims, x.lock, s.claims[d].mode)
    {
      UsersShare(s, x.name, d);
    }
    if k.writer {
      var d := Member(Holders(s.claims, x.lock, Writing));
      UsersShare(s, x.name, d);
    }
    if k.readers != 0 {
      var d := Member(Holders(s.claims, x.lock, Reading));
      UsersShare(s, x.name, d);
    }
  }

  /**
   A holder's release always finds the entry of its name, the object found is the one
   it took, and that object's mutex is taken in the holder's mode.
   */
  lemma ReleaseFindsItsLock(run: seq<Step>, c: int)
    requires Legal(EMPTY, run) && Enabled(Play(EMPTY, run), Release(c))
    ensures
      var s := Play(EMPTY, run);
      var claim := s.claims[c];
      && claim.name in s.locks && s.locks[claim.name] == claim.lock
      && claim.lock in s.counters && CanGive(s.counters[claim.lock], claim.mode)
  {
    EmptyInv();
    RunKeepsInv(EMPTY, run);
    var s := Play(EMPTY, run);
    HolderEntry(s, c);
  }

  ghost predicate Wanted(s: State, name: Name) {
    exists c :: c in s.claims && s.claims[c].name == name
  }

  /** The waiter count of every entry: claims waiting, claims holding, and failed attempts. */
  lemma WaitersCount(run: seq<Step>, name: Name)
    requires Legal(EMPTY, run) && name in Play(EMPTY, run).locks
    ensures
      var s := Play(EMPTY, run);
      var id := s.locks[name];
      && id in s.counters
      && s.counters[id].waiters
         == |set c | c in s.claims && s.claims[c].name == name && s.claims[c].Waiting?|
          + |set c | c in s.claims && s.claims[c].name == name && s.claims[c].Holding?|
          + Failures(s, id)
  {
    EmptyInv();
    RunKeepsInv(EMPTY, run);
    var s := Play(EMPTY, run);
    var id := s.locks[name];
    EntryAt(s, name);
    var waiting := set c | c in s.claims && s.claims[c].name == name && s.claims[c].Waiting?;
    var holding := set c | c in s.claims && s.claims[c].name == name && s.claims[c].Holding?;
    forall c | c in s.claims
      ensures c in Users(s.claims, id) <==> c in waiting + holding
    {
      UsersShare(s, name, c);
    }
    assert Users(s.claims, id) == waiting + holding && waiting !! holding;
  }

  // ---- Failed attempts keep their entry ----

  lemma LeakStays(s: State, e: Step, name: Name)
    requires Inv(s) && Enabled(s, e) && name in s.locks && Failures(s, s.locks[name]) > 0
    ensures name in Next(s, e).locks && Next(s, e).locks[name] == s.locks[name]
    ensures Failures(Next(s, e), s.locks[name]) > 0
  {
    hide Agrees;
    EntryAt(s, name);
    if e.Release? {
      ReleaseAgrees(s, e.claim, name);
      Exceeds(Next(s, e).counters[s.locks[name]], Failures(s, s.locks[name]), Next(s, e).claims, s.locks[name]);
    }
  }

  /** After one failed attempt on an entry, no continuation of the run ever deletes that entry. */
  lemma {:induction false} LeakIsForever(s: State, run: seq<Step>, name: Name)
    requires Inv(s) && Legal(s, run) && name in s.locks && Failures(s, s.locks[name]) > 0
    ensures name in Play(s, run).locks && Play(s, run).locks[name] == s.locks[name]
    decreases |run|
  {
    hide Inv;
    if run != [] {
      StepKeepsInv(s, run[0]);
      LeakStays(s, run[0], name);
      LeakIsForever(Next(s, run[0]), run[1..], name);
    }
  }

  /** Some attempt of the run on this name was given up. */
  ghost predicate GaveUp(s: State, run: seq<Step>, name: Name)
    requires Legal(s, run)
    decreases |run|
  {
    run != [] && (GivesUp(s, run[0], name) || GaveUp(Next(s, run[0]), run[1..], name))
  }

  predicate GivesUp(s: State, e: Step, name: Name) {
    e.GiveUp? && e.claim in s.claims && s.claims[e.claim].name == name
  }

  ghost predicate Leaking(s: State, name: Name) {
    name in s.locks && Failures(s, s.locks[name]) > 0
  }

  /** An entry begins to leak exactly by an attempt on its name that is given up, and goes on leaking. */
  lemma LeakBegins(s: State, e: Step, name: Name)
    requires Inv(s) && Enabled(s, e)
    ensures Leaking(Next(s, e), name) <==> Leaking(s, name) || GivesUp(s, e, name)
  {
    hide Agrees;
    if Leaking(s, name) {
      LeakStays(s, e, name);
    } else if e.GiveUp? {
      EntryAt(s, s.claims[e.claim].name);
      if name in s.locks {
        UsersShare(s, name, e.claim);
      }
    } else if e.Register? {
      FreshUnused(s);
    } else if e.Release? && name in s.locks {
      EntryAt(s, name);
      UsersShare(s, name, e.claim);
    }
  }

  lemma {:induction false} LeaksIffGaveUp(s: State, run: seq<Step>, name: Name)
    requires Inv(s) && Legal(s, run)
    ensures Leaking(Play(s, run), name) <==> Leaking(s, name) || GaveUp(s, run, name)
    decreases |run|
  {
    hide Inv, Leaking, GivesUp, Next, Enabled;
    if run != [] {
      StepKeepsInv(s, run[0]);
      LeakBegins(s, run[0], name);
      LeaksIffGaveUp(Next(s, run[0]), run[1..], name);
    }
  }

  /**
   After any run, the table has an entry for a name exactly when somebody claims the name or some
   attempt of the run on it was given up; releasing any other name reports that there is no such lock.
   */
  lemma EntryIffWanted(run: seq<Step>, name: Name)
    requires Legal(EMPTY, run)
    ensures name in Play(EMPTY, run).locks <==> Wanted(Play(EMPTY, run), name) || GaveUp(EMPTY, run, name)
  {
    EmptyInv();
    RunKeepsInv(EMPTY, run);
    LeaksIffGaveUp(EMPTY, run, name);
    var s := Play(EMPTY, run);
    if name in s.locks && Failures(s, s.locks[name]) == 0 {
      WantedOf(s, name);
    }
    assert name in s.locks ==> Failures(s, s.locks[name]) >= 0;
  }

  ghost predicate NeverGivesUp(run: seq<Step>) {
    forall i :: 0 <= i < |run| ==> !run[i].GiveUp?
  }

  lemma {:induction false} NoneGivenUp(s: State, run: seq<Step>, name: Name)
    requires Legal(s, run) && NeverGivesUp(run)
    ensures !GaveUp(s, run, name)
    decreases |run|
  {
    hide Next, Enabled;
    if run != [] {
      NoneGivenUp(Next(s, run[0]), run[1..], name);
    }
  }

  /** With no failed attempt the table is exactly the set of claimed names: nothing is left behind. */
  lemma CleanedUp(run: seq<Step>, name: Name)
    requires Legal(EMPTY, run) && NeverGivesUp(run)
    ensures name in Play(EMPTY, run).locks <==> Wanted(Play(EMPTY, run), name)
  {
    NoneGivenUp(EMPTY, run, name);
    EntryIffWanted(run, name);
  }

  lemma Played(s: State, e: Step, rest: seq<Step>)
    requires Enabled(s, e) && Legal(Next(s, e), rest)
    ensures Legal(s, [e] + rest) && Play(s, [e] + rest) == Play(Next(s, e), rest)
  {
    assert ([e] + rest)[1..] == rest;
  }

  /** A writer holds the name, another tries in vain, the writer releases: nobody is left and the entry is. */
  lemma LeftoverEntry(n: Name, run: seq<Step>)
    requires run == [Register(0, n, Writing, false)] + ([Acquire(0)] + ([Register(1, n, Writing, true)]
                 + ([GiveUp(1)] + ([Release(0)] + []))))
    ensures Legal(EMPTY, run) && n in Play(EMPTY, run).locks && Play(EMPTY, run).claims == map[]
  {
    hide Legal, Play;
    var s1 := State(map[n := 0], map[0 := Counter(1, false, 0)], 1, map[], map[0 := Waiting(n, 0, Writing, false)]);
    var s2 := s1.(counters := map[0 := Counter(1, true, 0)], claims := map[0 := Holding(n, 0, Writing)]);
    var s3 := s2.(counters := map[0 := Counter(2, true, 0)],
                  claims := map[0 := Holding(n, 0, Writing), 1 := Waiting(n, 0, Writing, true)]);
    var s4 := s3.(failed := map[0 := 1], claims := map[0 := Holding(n, 0, Writing)]);
    var s5 := s4.(counters := map[0 := Counter(1, false, 0)], claims := map[]);
    assert Next(EMPTY, Register(0, n, Writing, false)) == s1;
    assert Next(s1, Acquire(0)) == s2;
    assert Next(s2, Register(1, n, Writing, true)) == s3;
    assert Next(s3, GiveUp(1)) == s4;
    assert Next(s4, Release(0)) == s5;
    Idle(s5);
    Played(s4, Release(0), []);
    Played(s3, GiveUp(1), [Release(0)] + []);
    Played(s2, Register(1, n, Writing, true), [GiveUp(1)] + ([Release(0)] + []));
    Played(s1, Acquire(0), [Register(1, n, Writing, true)] + ([GiveUp(1)] + ([Release(0)] + [])));
    Played(EMPTY, Register(0, n, Writing, false),
           [Acquire(0)] + ([Register(1, n, Writing, true)] + ([GiveUp(1)] + ([Release(0)] + []))));
  }

  lemma Idle(s: State)
    ensures Legal(s, []) && Play(s, []) == s
  {
  }

  // ---- The table as the program keeps it ----

  /** The two critical sections of the table as updates in place. */
  class Table {
    var locks: map<Name, int>
    var counters: map<int, Counter>
    var next: int
    ghost var failed: map<int, int>
    ghost var claims: map<int, Claim>

    ghost function Now(): (r: State)
      reads this
    {
      State(locks, counters, next, failed, claims)
    }

    ghost predicate Valid()
      reads this
    {
      Inv(Now())
    }

    constructor ()
      ensures Valid() && Now() == EMPTY
    {
      locks, counters, next, failed, claims := map[], map[], 0, map[], map[];
    }

    /** Finds or creates the entry and counts the caller in. */
    method Enter(name: Name, ghost c: int, mode: Mode, trying: bool) returns (id: int)
      requires Valid() && Enabled(Now(), Register(c, name, mode, trying))
      modifies this
      ensures Valid() && Now() == Next(old(Now()), Register(c, name, mode, trying))
      ensures name in locks && id == locks[name] && claims[c] == Waiting(name, id, mode, trying)
    {
      hide Inv;
      StepKeepsInv(Now(), Register(c, name, mode, trying));
      if name in locks {
        id := locks[name];
      } else {
        id := next;
        next := next + 1;
        locks := locks[name := id];
      }
      assert locks == old(locks)[name := id];
      var k := if id in counters then counters[id] else Counter(0, false, 0);
      counters := counters[id := k.(waiters := k.waiters + 1)];
      claims := claims[c := Waiting(name, id, mode, trying)];
    }

    /**
     Releases the object the name leads to, for the claim `c` that holds the name. A name
     nobody claims, without failed attempts, is reported as no such lock and changes nothing.
     */
    method Leave(name: Name, ghost c: int, mode: Mode) returns (found: bool)
      requires Valid()
      requires name in locks ==> Enabled(Now(), Release(c)) && claims[c].name == name && claims[c].mode == mode
      modifies this
      ensures Valid() && found == (name in old(locks))
      ensures !found ==> Now() == old(Now()) && !Wanted(Now(), name)
      ensures found ==> Now() == Next(old(Now()), Release(c))
      ensures found ==> (name !in locks <==> !Wanted(Now(), name) && Failures(Now(), old(claims[c].lock)) == 0)
    {
      hide Agrees, Mapped, EntriesOk, Distinct, Numbered, Wanted;
      if name !in locks {
        Unwanted(Now(), name);
        return false;
      }
      StepKeepsInv(Now(), Release(c));
      HolderEntry(Now(), c);
      LeftBehind(Now(), c);
      var id := locks[name];
      var k := counters[id];
      if mode == Writing {
        k := k.(writer := false);
      } else {
        k := k.(readers := k.readers - 1);
      }
      k := k.(waiters := k.waiters - 1);
      counters := counters[id := k];
      if k.waiters == 0 {
        locks := locks - {name};
      }
      claims := claims - {c};
      found := true;
    }
  }

  lemma Unwanted(s: State, name: Name)
    requires Inv(s) && name !in s.locks
    ensures !Wanted(s, name)
  {
  }

  lemma HolderEntry(s: State, c: int)
    requires Inv(s) && Enabled(s, Release(c))
    ensures
      var x := s.claims[c];
      x.name in s.locks && s.locks[x.name] == x.lock && x.lock in s.counters && CanGive(s.counters[x.lock], x.mode)
  {
    var x := s.claims[c];
    EntryAt(s, x.name);
    ReleasedAgrees(s.counters[x.lock], Failures(s, x.lock), s.claims, x.lock, c);
  }

  /** A release deletes the entry exactly when it leaves no claim and no failed attempt on it. */
  lemma LeftBehind(s: State, c: int)
    requires Inv(s) && Enabled(s, Release(c))
    ensures
      var s' := Released(s, c);
      var x := s.claims[c];
      x.name !in s'.locks <==> !Wanted(s', x.name) && Failures(s', x.lock) == 0
  {
    hide Agrees;
    var s', x := Released(s, c), s.claims[c];
    HolderEntry(s, c);
    ReleaseAgrees(s, c, x.name);
    ReleaseKeeps(s, c);
    Exceeds(s'.counters[x.lock], Failures(s', x.lock), s'.claims, x.lock);
    if x.name in s'.locks && Failures(s', x.lock) == 0 {
      WantedOf(s', x.name);
    }
  }

  lemma Member(a: set<int>) returns (c: int)
    requires |a| > 0
    ensures c in a
  {
    assert (forall x :: x !in a) ==> a == {};
    c :| c in a;
  }

  lemma WantedOf(s: State, name: Name)
    requires Inv(s) && name in s.locks && Failures(s, s.locks[name]) == 0
    ensures Wanted(s, name)
  {
    EntryAt(s, name);
    var c := Member(Users(s.claims, s.locks[name]));
    UsersShare(s, name, c);
  }
}
