/**
 The client's attachment and watch-pipeline protocol as a step system.

 Goroutines run Attach, the paths that use an attachment (Sync, the sync loop, Detach and
 Remove), Activate, Deactivate and Close, and the stream readers of the watch loop. A step
 is one access to shared state. A remote call either succeeds or fails, as it pleases.

 The model keeps what the pipeline invariant rests on: the status and the generation, the
 three kinds of mutex, the registry of attachments, the keys being attached, and for every
 attachment the reader count, the stop-once and the event pump.
 */
module ClientProtocol {

  datatype Option<T> = None | Some(value: T)

  type Tid = int
  type Key = int
  type AttId = int

  datatype Status = Deactivated | Activated | Deactivating

  datatype Once = Unused | Running | Finished

  datatype Pump = Draining | StopAsked | Exited

  datatype Attachment = Attachment(
    key: Key,
    generation: int,
    published: bool,
    syncMu: Option<Tid>,
    readers: int,
    cancelled: bool,
    stopOnce: Once,
    pump: Pump)

  /** Stages of Activate, and of Deactivate and Close. */
  datatype LifeStage =
    | ActHeld | ActCalling | ActBumped
    | DeHeld | DeLeaving | DeListing | DeWalking | DeLocking(a: AttId) | DeCalling | DeDropping

  /** Stages of Attach before it has an attachment. */
  datatype MarkStage = Entering | WantMark | Looking | Dropping(a: AttId) | Marked(stale: Option<AttId>)
                     | WantStale(a: AttId) | Calling | Ending

  /** Stages of Attach once it has one. */
  datatype BuildStage = Applying | Ready | WantRegister | Checking | Registering | Refused | Handshaking | Handshook

  /** Stages of the paths that use an attachment; `Live` is past `lockLiveAttachment`. */
  datatype UseStage = WantSync | Held | SeenActive | Live

  datatype ReadStage = Receiving | Lost | Reconnecting | Leaving

  datatype Phase = Begin | WaitReaders | WaitPump | Over

  /** What a teardown returns to. */
  datatype Return =
    | ToCaller
    | ToAttach(k: Key, g: int)
    | ToAttachEnd(k: Key)
    | ToWalk(rest: set<AttId>)

  /** Where a goroutine stands, with what it has in its local variables. */
  datatype Pc =
    | Life(life: LifeStage, rest: set<AttId>)
    | Mark(mark: MarkStage, k: Key, g: int)
    | Build(build: BuildStage, k: Key, g: int, a: AttId)
    | Using(use: UseStage, a: AttId)
    | Retire(phase: Phase, a: AttId, back: Return)
    | Reader(read: ReadStage, a: AttId)

  datatype State = State(
    status: Status,
    generation: int,
    lifecycleMu: Option<Tid>,
    attachingMu: Option<Tid>,
    attaching: set<Key>,
    registry: map<Key, AttId>,
    atts: map<AttId, Attachment>,
    threads: map<Tid, Pc>)

  function Init(): (s: State) {
    State(Deactivated, 0, None, None, {}, map[], map[], map[])
  }

  /** What the outside decides about a step: how a call ends, which path is taken, which name is new. */
  datatype Choice = Choice(ok: bool, att: AttId, reader: Tid)

  datatype Op = Activate | Deactivate | Attach(k: Key) | Use(a: AttId)

  datatype Event =
    | Start(t: Tid, op: Op)
    | Move(t: Tid, choice: Choice)
    | PumpExit(a: AttId)
    | UserCancel(a: AttId)

  // ---- Steps -----------------------------------------------------------------------

  function Go(s: State, t: Tid, pc: Pc): (s': State) {
    s.(threads := s.threads[t := pc])
  }

  function End(s: State, t: Tid): (s': State) {
    s.(threads := s.threads - {t})
  }

  function SetAtt(s: State, a: AttId, att: Attachment): (s': State) {
    s.(atts := s.atts[a := att])
  }

  function AddReaders(s: State, a: AttId, n: int): (s': State)
    requires a in s.atts
  {
    SetAtt(s, a, s.atts[a].(readers := s.atts[a].readers + n))
  }

  function Lock(s: State, a: AttId, t: Tid): (s': State)
    requires a in s.atts
  {
    SetAtt(s, a, s.atts[a].(syncMu := Some(t)))
  }

  function Unlock(s: State, a: AttId): (s': State)
    requires a in s.atts
  {
    SetAtt(s, a, s.atts[a].(syncMu := None))
  }

  predicate Free(s: State, a: AttId) {
    a in s.atts && s.atts[a].syncMu == None
  }

  /** The attachment registered under the key of `a` is `a` itself. */
  predicate Registered(s: State, a: AttId) {
    a in s.atts && s.atts[a].key in s.registry && s.registry[s.atts[a].key] == a
  }

  /** All attachments registered at this moment. */
  function Listing(s: State): (r: set<AttId>) {
    set k | k in s.registry :: s.registry[k]
  }

  function Starting(s: State, t: Tid, op: Op): (r: Option<State>) {
    if t in s.threads then None
    else
      match op
      case Activate =>
        if s.lifecycleMu == None then Some(Go(s, t, Life(ActHeld, {})).(lifecycleMu := Some(t))) else None
      case Deactivate =>
        if s.lifecycleMu == None then Some(Go(s, t, Life(DeHeld, {})).(lifecycleMu := Some(t))) else None
      case Attach(k) =>
        if s.status == Activated then Some(Go(s, t, Mark(Entering, k, 0))) else None
      case Use(a) =>
        if a in s.atts && s.atts[a].published then Some(Go(s, t, Using(WantSync, a))) else None
  }

  /** Activate, Deactivate and Close, which finishes a failed Deactivate as one whose call succeeds does. */
  function LifeStep(s: State, t: Tid, life: LifeStage, rest: set<AttId>, c: Choice): (r: Option<State>) {
    match life
    case ActHeld =>
      if s.status == Deactivated then Some(Go(s, t, Life(ActCalling, {})))
      else Some(End(s, t).(lifecycleMu := None))
    case ActCalling =>
      if c.ok then Some(Go(s, t, Life(ActBumped, {})).(generation := s.generation + 1))
      else Some(End(s, t).(lifecycleMu := None))
    case ActBumped => Some(End(s, t).(status := Activated, lifecycleMu := None))
    case DeHeld =>
      if s.status == Deactivated then Some(End(s, t).(lifecycleMu := None))
      else Some(Go(s, t, Life(DeLeaving, {})))
    case DeLeaving =>
      if s.attachingMu == None then Some(Go(s, t, Life(DeListing, {})).(status := Deactivating)) else None
    case DeListing => Some(Go(s, t, Life(DeWalking, Listing(s))))
    case DeWalking =>
      if c.att in rest then Some(Go(s, t, Life(DeLocking(c.att), rest - {c.att})))
      else if rest == {} then Some(Go(s, t, Life(DeCalling, {})))
      else None
    case DeLocking(a) =>
      if Free(s, a) then Some(Go(Lock(s, a, t), t, Retire(Begin, a, ToWalk(rest)))) else None
    case DeCalling =>
      if c.ok then Some(Go(s, t, Life(DeDropping, Listing(s))))
      else Some(End(s, t).(lifecycleMu := None))
    case DeDropping =>
      if c.att in rest && c.att in s.atts
      then Some(Go(s, t, Life(DeDropping, rest - {c.att})).(registry := s.registry - {s.atts[c.att].key}))
      else if rest == {} then Some(End(s, t).(status := Deactivated, lifecycleMu := None))
      else None
  }

  /** Attach up to the point where it has the key to itself, and its last step. */
  function MarkStep(s: State, t: Tid, mark: MarkStage, k: Key, g: int, c: Choice): (r: Option<State>) {
    match mark
    case Entering => Some(Go(s, t, Mark(WantMark, k, s.generation)))
    case WantMark =>
      if s.attachingMu == None then Some(Go(s, t, Mark(Looking, k, g)).(attachingMu := Some(t))) else None
    case Looking =>
      if k in s.attaching || (k in s.registry && c.ok) then Some(End(s, t).(attachingMu := None))
      else if k in s.registry then Some(Go(s, t, Mark(Dropping(s.registry[k]), k, g)))
      else Some(Go(s, t, Mark(Marked(None), k, g)))
    case Dropping(a) =>
      Some(Go(s, t, Mark(Marked(Some(a)), k, g)).(registry := s.registry - {k}))
    case Marked(stale) =>
      Some(Go(s, t, Mark(if stale.None? then Calling else WantStale(stale.value), k, g))
           .(attaching := s.attaching + {k}, attachingMu := None))
    case WantStale(a) =>
      if Free(s, a) then Some(Go(Lock(s, a, t), t, Retire(Begin, a, ToAttach(k, g)))) else None
    case Calling =>
      if !c.ok then Some(Go(s, t, Mark(Ending, k, g)))
      else if c.att in s.atts then None
      else Some(Go(SetAtt(s, c.att, Attachment(k, g, false, None, 0, false, Unused, Draining)), t,
                   Build(Applying, k, g, c.att)))
    case Ending =>
      if s.attachingMu == None then Some(End(s, t).(attaching := s.attaching - {k})) else None
  }

  /** Attach from the moment the attachment exists to the end of the first handshake. */
  function BuildStep(s: State, t: Tid, build: BuildStage, k: Key, g: int, a: AttId, c: Choice): (r: Option<State>) {
    if a !in s.atts then None
    else
      match build
      case Applying =>
        Some(Go(s, t, if c.ok then Build(Ready, k, g, a) else Retire(Begin, a, ToAttachEnd(k))))
      case Ready => Some(Go(AddReaders(s, a, 1), t, Build(WantRegister, k, g, a)))
      case WantRegister =>
        if s.attachingMu == None then Some(Go(s, t, Build(Checking, k, g, a)).(attachingMu := Some(t))) else None
      case Checking =>
        if s.status == Activated && s.generation == g then Some(Go(s, t, Build(Registering, k, g, a)))
        else Some(Go(s, t, Build(Refused, k, g, a)).(attachingMu := None))
      case Registering =>
        Some(Go(SetAtt(s, a, s.atts[a].(published := true)), t, Build(Handshaking, k, g, a))
             .(registry := s.registry[k := a], attachingMu := None))
      case Refused => Some(Go(AddReaders(s, a, -1), t, Retire(Begin, a, ToAttachEnd(k))))
      case Handshaking =>
        if !c.ok then Some(Go(s, t, Build(Handshook, k, g, a)))
        else if c.reader in s.threads then None
        else Some(Go(Go(AddReaders(s, a, 1), c.reader, Reader(Receiving, a)), t, Build(Handshook, k, g, a)))
      case Handshook => Some(Go(AddReaders(s, a, -1), t, Mark(Ending, k, g)))
  }

  /** Sync, the sync loop, Detach and Remove. */
  function UseStep(s: State, t: Tid, use: UseStage, a: AttId, c: Choice): (r: Option<State>) {
    if a !in s.atts then None
    else
      match use
      case WantSync => if Free(s, a) then Some(Go(Lock(s, a, t), t, Using(Held, a))) else None
      case Held =>
        if s.status == Activated then Some(Go(s, t, Using(SeenActive, a))) else Some(End(Unlock(s, a), t))
      case SeenActive =>
        if Registered(s, a) then Some(Go(s, t, Using(Live, a))) else Some(End(Unlock(s, a), t))
      case Live =>
        if c.ok then Some(End(Unlock(s, a), t))
        else Some(Go(s, t, Retire(Begin, a, ToCaller)).(registry := s.registry - {s.atts[a].key}))
  }

  function RetireStep(s: State, t: Tid, phase: Phase, a: AttId, back: Return): (r: Option<State>) {
    if a !in s.atts then None
    else
      var att := s.atts[a];
      match phase
      case Begin =>
        if att.stopOnce == Unused
        then Some(Go(SetAtt(s, a, att.(stopOnce := Running, cancelled := true)), t, Retire(WaitReaders, a, back)))
        else if att.stopOnce == Finished then Some(Go(s, t, Retire(Over, a, back)))
        else None
      case WaitReaders =>
        if att.readers == 0
        then Some(Go(SetAtt(s, a, att.(pump := StopAsked)), t, Retire(WaitPump, a, back)))
        else None
      case WaitPump =>
        if att.pump == Exited
        then Some(Go(SetAtt(s, a, att.(stopOnce := Finished)), t, Retire(Over, a, back)))
        else None
      case Over =>
        match back
        case ToCaller => Some(End(Unlock(s, a), t))
        case ToAttach(k, g) => Some(Go(Unlock(s, a), t, Mark(Calling, k, g)))
        case ToAttachEnd(k) => Some(Go(s, t, Mark(Ending, k, 0)))
        case ToWalk(rest) => Some(Go(Unlock(s, a), t, Life(DeWalking, rest)))
  }

  function ReadStep(s: State, t: Tid, read: ReadStage, a: AttId, c: Choice): (r: Option<State>) {
    if a !in s.atts then None
    else
      match read
      case Receiving =>
        if c.ok || s.atts[a].cancelled then Some(End(AddReaders(s, a, -1), t))
        else Some(Go(s, t, Reader(Lost, a)))
      case Lost => Some(Go(s, t, Reader(if s.status == Activated then Reconnecting else Leaving, a)))
      case Reconnecting =>
        if c.ok then
          if c.reader in s.threads then None
          else Some(Go(Go(AddReaders(s, a, 1), c.reader, Reader(Receiving, a)), t, Reader(Leaving, a)))
        else if s.atts[a].cancelled || s.status != Activated then Some(Go(s, t, Reader(Leaving, a)))
        else Some(s)
      case Leaving => Some(End(AddReaders(s, a, -1), t))
  }

  function Moving(s: State, t: Tid, c: Choice): (r: Option<State>)
    requires t in s.threads
  {
    match s.threads[t]
    case Life(life, rest) => LifeStep(s, t, life, rest, c)
    case Mark(mark, k, g) => MarkStep(s, t, mark, k, g, c)
    case Build(build, k, g, a) => BuildStep(s, t, build, k, g, a, c)
    case Using(use, a) => UseStep(s, t, use, a, c)
    case Retire(phase, a, back) => RetireStep(s, t, phase, a, back)
    case Reader(read, a) => ReadStep(s, t, read, a, c)
  }

  /** One event; `None` when it cannot happen in `s`. */
  function Next(s: State, e: Event): (r: Option<State>) {
    match e
    case Start(t, op) => Starting(s, t, op)
    case Move(t, c) => if t in s.threads then Moving(s, t, c) else None
    case PumpExit(a) =>
      if a in s.atts && s.atts[a].pump == StopAsked
      then Some(SetAtt(s, a, s.atts[a].(pump := Exited))) else None
    case UserCancel(a) =>
      if a in s.atts && s.atts[a].published
      then Some(SetAtt(s, a, s.atts[a].(cancelled := true))) else None
  }

  // ---- What a goroutine holds, by where it stands --------------------------------------

  /** The attachment whose `syncMu` is held. */
  function SyncOf(pc: Pc): (r: Option<AttId>) {
    if pc.Using? && pc.use != WantSync then Some(pc.a)
    else if pc.Retire? && !pc.back.ToAttachEnd? then Some(pc.a)
    else None
  }

  predicate HoldsAttachingMu(pc: Pc) {
    || (pc.Mark? && (pc.mark == Looking || pc.mark.Dropping? || pc.mark.Marked?))
    || (pc.Build? && (pc.build == Checking || pc.build == Registering))
  }

  predicate HoldsLifecycleMu(pc: Pc) {
    pc.Life? || (pc.Retire? && pc.back.ToWalk?)
  }

  /** The attachment in whose reader count this goroutine is counted. */
  function SlotOf(pc: Pc): (r: Option<AttId>) {
    if pc.Reader? || (pc.Build? && pc.build != Applying && pc.build != Ready) then Some(pc.a) else None
  }

  predicate Published(b: BuildStage) {
    b == Handshaking || b == Handshook
  }

  /** The unpublished attachment only this goroutine knows. */
  function OwnOf(pc: Pc): (r: Option<AttId>) {
    if pc.Build? && !Published(pc.build) then Some(pc.a)
    else if pc.Retire? && pc.back.ToAttachEnd? then Some(pc.a)
    else None
  }

  /** The published attachment this goroutine refers to. */
  function RefOf(pc: Pc): (r: Option<AttId>) {
    match pc
    case Life(life, _) => if life.DeLocking? then Some(life.a) else None
    case Mark(mark, _, _) =>
      if mark.Dropping? || mark.WantStale? then Some(mark.a) else if mark.Marked? then mark.stale else None
    case Build(build, _, _, a) => if Published(build) then Some(a) else None
    case Using(_, a) => Some(a)
    case Retire(_, a, back) => if back.ToAttachEnd? then None else Some(a)
    case Reader(_, a) => Some(a)
  }

  /** The key this goroutine has marked and has not registered an attachment under. */
  function PendingOf(pc: Pc): (r: Option<Key>) {
    match pc
    case Mark(mark, k, _) => if mark.WantStale? || mark == Calling then Some(k) else None
    case Build(build, k, _, _) => if Published(build) then None else Some(k)
    case Retire(_, _, back) => if back.ToAttach? || back.ToAttachEnd? then Some(back.k) else None
    case _ => None
  }

  /** The key this goroutine has marked as being attached. */
  function MarkOf(pc: Pc): (r: Option<Key>) {
    if pc.Mark? && pc.mark == Ending then Some(pc.k)
    else if pc.Build? && Published(pc.build) then Some(pc.k)
    else PendingOf(pc)
  }

  /** The attachment this goroutine has dropped from the registry as stale and is queueing for. */
  function DropOf(pc: Pc): (r: Option<AttId>) {
    if pc.Mark? && pc.mark.Marked? then pc.mark.stale
    else if pc.Mark? && pc.mark.WantStale? then Some(pc.mark.a)
    else None
  }

  /** The attachment this goroutine has taken out of use and will retire, or is retiring. */
  function OwesOf(pc: Pc): (r: Option<AttId>) {
    if pc.Retire? then Some(pc.a) else DropOf(pc)
  }

  /** The attachment whose document this goroutine may publish events on. */
  function PublishesOn(pc: Pc): (r: Option<AttId>) {
    if || (pc.Build? && (pc.build == Applying || pc.build == Handshaking))
       || (pc.Using? && pc.use == Live)
       || (pc.Reader? && (pc.read == Receiving || pc.read == Reconnecting))
    then Some(pc.a) else None
  }

  // ---- The invariant --------------------------------------------------------------------

  ghost predicate LocksOk(s: State, t: Tid, pc: Pc) {
    && (SyncOf(pc).Some? ==> SyncOf(pc).value in s.atts && s.atts[SyncOf(pc).value].syncMu == Some(t))
    && (HoldsAttachingMu(pc) ==> s.attachingMu == Some(t))
    && (HoldsLifecycleMu(pc) ==> s.lifecycleMu == Some(t))
  }

  ghost predicate NamesOk(s: State, pc: Pc) {
    && (RefOf(pc).Some? ==> RefOf(pc).value in s.atts && s.atts[RefOf(pc).value].published)
    && (OwnOf(pc).Some? ==>
          && OwnOf(pc).value in s.atts
          && var att := s.atts[OwnOf(pc).value];
          && !att.published && att.syncMu == None && PendingOf(pc) == Some(att.key)
          && (pc.Build? ==>
                && att.stopOnce == Unused && att.generation == pc.g
                && (pc.build == Registering ==> s.status == Activated && s.generation == pc.g)))
  }

  ghost predicate KeysOk(s: State, pc: Pc) {
    && (MarkOf(pc).Some? ==> MarkOf(pc).value in s.attaching)
    && (PendingOf(pc).Some? ==> PendingOf(pc).value !in s.registry)
    && (pc.Mark? && pc.mark.Marked? ==> pc.k !in s.attaching && pc.k !in s.registry)
    && (pc.Mark? && pc.mark.Dropping? ==>
          && pc.k !in s.attaching && pc.mark.a in s.atts && s.atts[pc.mark.a].key == pc.k
          && (pc.k in s.registry ==> s.registry[pc.k] == pc.mark.a))
    && (DropOf(pc).Some? ==> DropOf(pc).value in s.atts && s.atts[DropOf(pc).value].key == pc.k)
  }

  /** Every registered attachment outside `rest` is retired. */
  ghost predicate Covered(s: State, rest: set<AttId>) {
    forall k :: k in s.registry ==>
      s.registry[k] in rest || (s.registry[k] in s.atts && s.atts[s.registry[k]].stopOnce == Finished)
  }

  ghost predicate AllPublished(s: State, rest: set<AttId>) {
    forall a :: a in rest ==> a in s.atts && s.atts[a].published
  }

  ghost predicate WalkOk(s: State, pc: Pc) {
    match pc
    case Life(life, rest) =>
      && AllPublished(s, rest)
      && (match life
          case ActHeld => true
          case ActCalling => s.status == Deactivated
          case ActBumped => s.status == Deactivated
          case DeHeld => true
          case DeLeaving => s.status != Deactivated
          case DeListing => s.status == Deactivating
          case DeWalking => s.status == Deactivating && Covered(s, rest)
          case DeLocking(a) => s.status == Deactivating && Covered(s, rest + {a})
          case DeCalling => s.status == Deactivating && Covered(s, {})
          case DeDropping =>
            && s.status == Deactivating && Covered(s, {})
            && forall k :: k in s.registry ==> s.registry[k] in rest)
    case Retire(_, a, back) =>
      back.ToWalk? ==> s.status == Deactivating && AllPublished(s, back.rest) && Covered(s, back.rest + {a})
    case _ => true
  }

  /** A teardown in progress, on an attachment that is out of the registry or of an activation that is over. */
  ghost predicate RetireOk(s: State, pc: Pc) {
    pc.Retire? ==>
      && pc.a in s.atts
      && var att := s.atts[pc.a];
      && (pc.back.ToCaller? || pc.back.ToAttach? ==> !Registered(s, pc.a))
      && (pc.phase == Begin ==> att.stopOnce != Running)
      && (pc.phase == WaitReaders ==> att.stopOnce == Running && att.pump == Draining && att.cancelled)
      && (pc.phase == WaitPump ==> att.stopOnce == Running && att.pump != Draining)
      && (pc.phase == Over ==> att.stopOnce == Finished)
  }

  /** Someone dropped `a` from the registry as stale and is queueing for its `syncMu`. */
  ghost predicate Dropped(s: State, a: AttId) {
    exists t :: t in s.threads && DropOf(s.threads[t]) == Some(a)
  }

  ghost predicate LiveOk(s: State, pc: Pc) {
    && (pc.Using? && pc.use != WantSync ==> pc.a in s.atts && s.atts[pc.a].stopOnce != Running)
    && (pc.Using? && pc.use == SeenActive && Registered(s, pc.a) ==> s.atts[pc.a].stopOnce == Unused)
    && (pc.Using? && pc.use == Live ==>
          && pc.a in s.atts && s.atts[pc.a].stopOnce == Unused
          && (Registered(s, pc.a) || (s.atts[pc.a].key !in s.registry && Dropped(s, pc.a))))
  }

  ghost predicate ThreadOk(s: State, t: Tid, pc: Pc) {
    LocksOk(s, t, pc) && NamesOk(s, pc) && KeysOk(s, pc) && WalkOk(s, pc) && RetireOk(s, pc) && LiveOk(s, pc)
  }

  ghost predicate PipelineOk(att: Attachment) {
    && (att.stopOnce == Unused ==> att.pump == Draining)
    && (att.stopOnce == Finished ==> att.pump == Exited)
    && (att.pump != Draining ==> att.readers == 0)
    && (att.published || att.syncMu == None)
    && (att.published && att.stopOnce == Running ==> att.syncMu.Some?)
  }

  ghost predicate RegistryOk(s: State) {
    && (forall k :: k in s.registry ==>
          && s.registry[k] in s.atts
          && var att := s.atts[s.registry[k]];
          && att.key == k && att.published && att.generation == s.generation
          && (s.status == Activated ==> att.stopOnce == Unused))
    && (s.status == Deactivated ==> s.registry == map[])
  }

  ghost predicate MarksUnique(s: State) {
    forall t, u :: t in s.threads && u in s.threads && t != u && MarkOf(s.threads[t]).Some? ==>
      MarkOf(s.threads[t]) != MarkOf(s.threads[u])
  }

  function Holders(threads: map<Tid, Pc>, a: AttId): (r: set<Tid>) {
    set t | t in threads && SlotOf(threads[t]) == Some(a)
  }

  ghost predicate CountsOk(s: State) {
    forall a :: a in s.atts ==> s.atts[a].readers == |Holders(s.threads, a)|
  }

  ghost predicate Owed(s: State, a: AttId) {
    exists t :: t in s.threads && OwesOf(s.threads[t]) == Some(a)
  }

  ghost predicate DebtsOk(s: State) {
    forall a :: a in s.atts && s.atts[a].published ==>
      Registered(s, a) || s.atts[a].stopOnce == Finished || Owed(s, a)
  }

  ghost predicate ThreadsOk(s: State) {
    forall t :: t in s.threads ==> ThreadOk(s, t, s.threads[t])
  }

  ghost predicate PipelinesOk(s: State) {
    forall a :: a in s.atts ==> PipelineOk(s.atts[a])
  }

  ghost predicate Inv(s: State) {
    ThreadsOk(s) && PipelinesOk(s) && RegistryOk(s) && MarksUnique(s) && CountsOk(s) && DebtsOk(s)
  }

  lemma InitOk()
    ensures Inv(Init())
  {
  }

  // ---- What one goroutine's step may do to the others --------------------------------------

  /** A goroutine not yet started, or ended, holds nothing. */
  function PcOf(s: State, t: Tid): (pc: Pc) {
    if t in s.threads then s.threads[t] else Mark(Entering, 0, 0)
  }

  ghost predicate Mine(s: State, t: Tid, a: AttId) {
    SyncOf(PcOf(s, t)) == Some(a) || OwnOf(PcOf(s, t)) == Some(a)
  }

  ghost predicate Mutex(t: Tid, before: Option<Tid>, after: Option<Tid>) {
    after == before || before == None || before == Some(t)
  }

  ghost predicate AttEvolves(s: State, t: Tid, a: AttId, x: Attachment, y: Attachment) {
    && y.key == x.key && y.generation == x.generation && (x.published ==> y.published)
    && Mutex(t, x.syncMu, y.syncMu)
    && (!x.published && OwnOf(PcOf(s, t)) != Some(a) ==> y == x)
    && (y.stopOnce != x.stopOnce ==> Mine(s, t, a) && x.stopOnce != Finished)
    && (y.pump != x.pump ==> Mine(s, t, a))
    && (x.cancelled ==> y.cancelled)
  }

  ghost predicate RegistryEvolves(s: State, t: Tid, s': State) {
    && (forall k :: k in s'.registry && !(k in s.registry && s.registry[k] == s'.registry[k]) ==>
          && k !in s.registry && PendingOf(PcOf(s, t)) == Some(k) && OwnOf(PcOf(s, t)) == Some(s'.registry[k])
          && s.attachingMu == Some(t) && s.status == Activated)
    && (forall k :: k in s.registry && k !in s'.registry ==>
          || DropOf(PcOf(s', t)) == Some(s.registry[k])
          || SyncOf(PcOf(s, t)) == Some(s.registry[k])
          || (s.registry[k] in s.atts && s.atts[s.registry[k]].stopOnce == Finished))
  }

  ghost predicate StatusEvolves(s: State, t: Tid, s': State) {
    && (s'.status != s.status ==> s.lifecycleMu == Some(t))
    && (s.status == Activated && s'.status != Activated ==> s.attachingMu == None)
    && (s'.generation != s.generation ==> s.status == Deactivated)
  }

  ghost predicate AttachingEvolves(s: State, t: Tid, s': State) {
    && (forall k :: k in s.attaching && k !in s'.attaching ==> MarkOf(PcOf(s, t)) == Some(k))
    && (s'.attaching != s.attaching ==> s.attachingMu == None || s.attachingMu == Some(t))
  }

  ghost predicate AttsEvolve(s: State, t: Tid, s': State) {
    forall a :: a in s.atts ==> a in s'.atts && AttEvolves(s, t, a, s.atts[a], s'.atts[a])
  }

  ghost predicate ThreadsEvolve(s: State, t: Tid, s': State) {
    && (forall u :: u != t && u in s.threads ==> u in s'.threads && s'.threads[u] == s.threads[u])
    && (DropOf(PcOf(s, t)).Some? ==>
          DropOf(PcOf(s', t)) == DropOf(PcOf(s, t)) || Free(s, DropOf(PcOf(s, t)).value))
  }

  /** The bounds within which a step of `t` changes the shared state. */
  ghost predicate Evolves(s: State, t: Tid, s': State) {
    && ThreadsEvolve(s, t, s') && AttsEvolve(s, t, s') && RegistryEvolves(s, t, s')
    && StatusEvolves(s, t, s') && AttachingEvolves(s, t, s')
    && Mutex(t, s.lifecycleMu, s'.lifecycleMu) && Mutex(t, s.attachingMu, s'.attachingMu)
  }

  /** Two goroutines never own the same unpublished attachment, nor have marked the same key. */
  lemma Apart(s: State, t: Tid, u: Tid)
    requires Inv(s) && u in s.threads && t != u
    ensures MarkOf(s.threads[u]).Some? ==> MarkOf(PcOf(s, t)) != MarkOf(s.threads[u])
    ensures PendingOf(s.threads[u]).Some? ==> PendingOf(PcOf(s, t)) != PendingOf(s.threads[u])
    ensures OwnOf(s.threads[u]).Some? ==> OwnOf(PcOf(s, t)) != OwnOf(s.threads[u])
    ensures SyncOf(s.threads[u]).Some? ==> SyncOf(PcOf(s, t)) != SyncOf(s.threads[u])
    ensures SyncOf(s.threads[u]).Some? ==> OwnOf(PcOf(s, t)) != SyncOf(s.threads[u])
    ensures OwnOf(s.threads[u]).Some? ==> SyncOf(PcOf(s, t)) != OwnOf(s.threads[u])
  {
    assert ThreadOk(s, u, s.threads[u]);
    if t in s.threads {
      assert ThreadOk(s, t, s.threads[t]);
    }
  }

  lemma LocksStable(s: State, t: Tid, s': State, u: Tid)
    requires Inv(s) && Evolves(s, t, s') && u in s.threads && t != u
    ensures LocksOk(s', u, s.threads[u])
  {
    assert ThreadOk(s, u, s.threads[u]);
    hide SyncOf, HoldsAttachingMu, HoldsLifecycleMu;
  }

  lemma NamesStable(s: State, t: Tid, s': State, u: Tid)
    requires Inv(s) && Evolves(s, t, s') && u in s.threads && t != u
    ensures NamesOk(s', s.threads[u])
  {
    var pc := s.threads[u];
    assert ThreadOk(s, u, pc);
    Apart(s, t, u);
    hide RefOf, OwnOf, PendingOf, SyncOf;
    if RefOf(pc).Some? {
      var a := RefOf(pc).value;
      assert AttEvolves(s, t, a, s.atts[a], s'.atts[a]);
    }
    if OwnOf(pc).Some? {
      var a := OwnOf(pc).value;
      assert AttEvolves(s, t, a, s.atts[a], s'.atts[a]);
      assert pc.Build? && pc.build == Registering ==> HoldsAttachingMu(pc);
    }
  }

  lemma KeysStable(s: State, t: Tid, s': State, u: Tid)
    requires Inv(s) && Evolves(s, t, s') && u in s.threads && t != u
    ensures KeysOk(s', s.threads[u])
  {
    var pc := s.threads[u];
    assert ThreadOk(s, u, pc);
    Apart(s, t, u);
    assert pc.Mark? && (pc.mark.Marked? || pc.mark.Dropping?) ==> HoldsAttachingMu(pc);
    hide PendingOf, MarkOf, SyncOf, OwnOf, DropOf, HoldsAttachingMu;
    if DropOf(pc).Some? {
      var a := DropOf(pc).value;
      assert AttEvolves(s, t, a, s.atts[a], s'.atts[a]);
    }
    if pc.Mark? && pc.mark.Dropping? {
      var a := pc.mark.a;
      assert AttEvolves(s, t, a, s.atts[a], s'.atts[a]);
    }
  }

  lemma WalkStable(s: State, t: Tid, s': State, u: Tid)
    requires Inv(s) && Evolves(s, t, s') && u in s.threads && t != u
    ensures WalkOk(s', s.threads[u])
  {
    assert ThreadOk(s, u, s.threads[u]);
  }

  lemma RetireStable(s: State, t: Tid, s': State, u: Tid)
    requires Inv(s) && Evolves(s, t, s') && u in s.threads && t != u
    ensures RetireOk(s', s.threads[u])
  {
    assert ThreadOk(s, u, s.threads[u]);
    Apart(s, t, u);
  }

  lemma LiveStable(s: State, t: Tid, s': State, u: Tid)
    requires Inv(s) && Evolves(s, t, s') && u in s.threads && t != u
    ensures LiveOk(s', s.threads[u])
  {
    assert ThreadOk(s, u, s.threads[u]);
    Apart(s, t, u);
  }

  lemma OthersStable(s: State, t: Tid, s': State, u: Tid)
    requires Inv(s) && Evolves(s, t, s') && u in s.threads && t != u
    ensures ThreadOk(s', u, s.threads[u])
  {
    LocksStable(s, t, s', u);
    NamesStable(s, t, s', u);
    KeysStable(s, t, s', u);
    WalkStable(s, t, s', u);
    RetireStable(s, t, s', u);
    LiveStable(s, t, s', u);
  }

  // ---- A step as a composition of elementary changes -------------------------------------------

  lemma GoEvolves(s: State, t: Tid, pc: Pc)
    requires DropOf(PcOf(s, t)).None? || DropOf(pc) == DropOf(PcOf(s, t)) || Free(s, DropOf(PcOf(s, t)).value)
    ensures Evolves(s, t, Go(s, t, pc))
  {
  }

  lemma EndEvolves(s: State, t: Tid)
    requires DropOf(PcOf(s, t)).None?
    ensures Evolves(s, t, End(s, t))
  {
  }

  lemma SpawnEvolves(s: State, t: Tid, s1: State, r: Tid, pc: Pc)
    requires Evolves(s, t, s1) && r !in s.threads && r != t
    ensures Evolves(s, t, Go(s1, r, pc))
  {
    assert PcOf(Go(s1, r, pc), t) == PcOf(s1, t);
  }

  lemma AttEvolvesIn(s: State, t: Tid, s1: State, a: AttId, att: Attachment)
    requires Evolves(s, t, s1) && s1.atts == s.atts
    requires a in s.atts ==> AttEvolves(s, t, a, s.atts[a], att)
    ensures Evolves(s, t, SetAtt(s1, a, att))
  {
    hide AttEvolves;
    assert PcOf(SetAtt(s1, a, att), t) == PcOf(s1, t);
  }

  lemma MutexEvolves(s: State, t: Tid, s1: State, lifecycle: Option<Tid>, attaching: Option<Tid>)
    requires Evolves(s, t, s1)
    requires Mutex(t, s.lifecycleMu, lifecycle) && Mutex(t, s.attachingMu, attaching)
    ensures Evolves(s, t, s1.(lifecycleMu := lifecycle, attachingMu := attaching))
  {
    hide AttEvolves, DropOf;
    assert PcOf(s1.(lifecycleMu := lifecycle, attachingMu := attaching), t) == PcOf(s1, t);
  }

  lemma StatusEvolvesIn(s: State, t: Tid, s1: State, status: Status, generation: int)
    requires Evolves(s, t, s1) && StatusEvolves(s, t, s1.(status := status, generation := generation))
    ensures Evolves(s, t, s1.(status := status, generation := generation))
  {
    hide AttEvolves, DropOf;
    assert PcOf(s1.(status := status, generation := generation), t) == PcOf(s1, t);
  }

  lemma RegistryEvolvesIn(s: State, t: Tid, s1: State, registry: map<Key, AttId>)
    requires Evolves(s, t, s1) && RegistryEvolves(s, t, s1.(registry := registry))
    ensures Evolves(s, t, s1.(registry := registry))
  {
    hide AttEvolves, DropOf;
    assert PcOf(s1.(registry := registry), t) == PcOf(s1, t);
  }

  lemma AttachingEvolvesIn(s: State, t: Tid, s1: State, attaching: set<Key>)
    requires Evolves(s, t, s1) && AttachingEvolves(s, t, s1.(attaching := attaching))
    ensures Evolves(s, t, s1.(attaching := attaching))
  {
    hide AttEvolves, DropOf;
    assert PcOf(s1.(attaching := attaching), t) == PcOf(s1, t);
  }

  lemma StartEvolves(s: State, t: Tid, op: Op, s': State)
    requires Starting(s, t, op) == Some(s')
    ensures Evolves(s, t, s')
  {
    hide Evolves;
    match op
    case Activate =>
      GoEvolves(s, t, Life(ActHeld, {}));
      MutexEvolves(s, t, Go(s, t, Life(ActHeld, {})), Some(t), s.attachingMu);
    case Deactivate =>
      GoEvolves(s, t, Life(DeHeld, {}));
      MutexEvolves(s, t, Go(s, t, Life(DeHeld, {})), Some(t), s.attachingMu);
    case Attach(k) => GoEvolves(s, t, Mark(Entering, k, 0));
    case Use(a) => GoEvolves(s, t, Using(WantSync, a));
  }

  /** The thread part of a step: `t` goes on, or ends. */
  function Shift(s: State, t: Tid, s': State): (s1: State) {
    if t in s'.threads then Go(s, t, s'.threads[t]) else End(s, t)
  }

  lemma ShiftEvolves(s: State, t: Tid, s': State)
    requires t in s.threads
    requires || DropOf(s.threads[t]).None?
             || (t in s'.threads && DropOf(s'.threads[t]) == DropOf(s.threads[t]))
             || (t in s'.threads && Free(s, DropOf(s.threads[t]).value))
    ensures Evolves(s, t, Shift(s, t, s'))
    ensures PcOf(Shift(s, t, s'), t) == PcOf(s', t)
  {
    if t in s'.threads {
      GoEvolves(s, t, s'.threads[t]);
    } else {
      EndEvolves(s, t);
    }
  }

  lemma LifeEvolves(s: State, t: Tid, life: LifeStage, rest: set<AttId>, c: Choice, s': State)
    requires t in s.threads && s.threads[t] == Life(life, rest) && LifeStep(s, t, life, rest, c) == Some(s')
    requires LocksOk(s, t, s.threads[t]) && NamesOk(s, s.threads[t]) && WalkOk(s, s.threads[t]) && RegistryOk(s)
    ensures Evolves(s, t, s')
  {
    hide Evolves, Covered, AllPublished;
    var s1 := Shift(s, t, s');
    ShiftEvolves(s, t, s');
    if life.DeLocking? {
      AttEvolvesIn(s, t, s1, life.a, s'.atts[life.a]);
    } else if life == DeDropping && c.att in rest {
      DropEvolves(s, t, rest, c.att, s1, s'.registry);
    } else {
      StatusEvolvesIn(s, t, s1, s'.status, s'.generation);
      MutexEvolves(s, t, s1.(status := s'.status, generation := s'.generation), s'.lifecycleMu, s'.attachingMu);
    }
  }

  lemma DropEvolves(s: State, t: Tid, rest: set<AttId>, a: AttId, s1: State, registry: map<Key, AttId>)
    requires Evolves(s, t, s1) && a in s.atts && registry == s.registry - {s.atts[a].key}
    requires WalkOk(s, Life(DeDropping, rest))
    ensures Evolves(s, t, s1.(registry := registry))
  {
    RegistryEvolvesIn(s, t, s1, registry);
  }

  lemma MarkEvolves(s: State, t: Tid, mark: MarkStage, k: Key, g: int, c: Choice, s': State)
    requires t in s.threads && s.threads[t] == Mark(mark, k, g) && MarkStep(s, t, mark, k, g, c) == Some(s')
    requires LocksOk(s, t, s.threads[t]) && NamesOk(s, s.threads[t]) && KeysOk(s, s.threads[t])
    ensures Evolves(s, t, s')
  {
    hide Evolves;
    var s1 := Shift(s, t, s');
    ShiftEvolves(s, t, s');
    if mark.WantStale? {
      AttEvolvesIn(s, t, s1, mark.a, s'.atts[mark.a]);
    } else if mark == Calling {
      if c.ok { AttEvolvesIn(s, t, s1, c.att, s'.atts[c.att]); }
    } else if mark.Dropping? {
      RegistryEvolvesIn(s, t, s1, s'.registry);
    } else {
      AttachingEvolvesIn(s, t, s1, s'.attaching);
      MutexEvolves(s, t, s1.(attaching := s'.attaching), s'.lifecycleMu, s'.attachingMu);
    }
  }

  lemma BuildEvolves(s: State, t: Tid, build: BuildStage, k: Key, g: int, a: AttId, c: Choice, s': State)
    requires t in s.threads && s.threads[t] == Build(build, k, g, a) && BuildStep(s, t, build, k, g, a, c) == Some(s')
    requires LocksOk(s, t, s.threads[t]) && NamesOk(s, s.threads[t]) && KeysOk(s, s.threads[t])
    ensures Evolves(s, t, s')
  {
    hide Evolves;
    var s1 := Shift(s, t, s');
    ShiftEvolves(s, t, s');
    var s2 := SetAtt(s1, a, s'.atts[a]);
    AttEvolvesIn(s, t, s1, a, s'.atts[a]);
    if build == Registering {
      RegistryEvolvesIn(s, t, s2, s'.registry);
      MutexEvolves(s, t, s2.(registry := s'.registry), s'.lifecycleMu, s'.attachingMu);
    } else if build == Handshaking && c.ok {
      SpawnEvolves(s, t, s2, c.reader, Reader(Receiving, a));
      assert Go(s2, c.reader, Reader(Receiving, a)).threads == s'.threads;
    } else {
      assert s2.atts == s'.atts;
      MutexEvolves(s, t, s2, s'.lifecycleMu, s'.attachingMu);
    }
  }

  lemma UseEvolves(s: State, t: Tid, use: UseStage, a: AttId, c: Choice, s': State)
    requires t in s.threads && s.threads[t] == Using(use, a) && UseStep(s, t, use, a, c) == Some(s')
    requires LocksOk(s, t, s.threads[t]) && NamesOk(s, s.threads[t]) && LiveOk(s, s.threads[t])
    ensures Evolves(s, t, s')
  {
    hide Evolves;
    var s1 := Shift(s, t, s');
    ShiftEvolves(s, t, s');
    if use == Live && !c.ok {
      RegistryEvolvesIn(s, t, s1, s'.registry);
    } else {
      AttEvolvesIn(s, t, s1, a, s'.atts[a]);
      assert SetAtt(s1, a, s'.atts[a]).atts == s'.atts;
    }
  }

  lemma RetireEvolves(s: State, t: Tid, phase: Phase, a: AttId, back: Return, s': State)
    requires t in s.threads && s.threads[t] == Retire(phase, a, back) && RetireStep(s, t, phase, a, back) == Some(s')
    requires LocksOk(s, t, s.threads[t]) && NamesOk(s, s.threads[t]) && RetireOk(s, s.threads[t])
    ensures Evolves(s, t, s')
  {
    hide Evolves;
    var s1 := Shift(s, t, s');
    ShiftEvolves(s, t, s');
    AttEvolvesIn(s, t, s1, a, s'.atts[a]);
    assert SetAtt(s1, a, s'.atts[a]).atts == s'.atts;
  }

  lemma ReadEvolves(s: State, t: Tid, read: ReadStage, a: AttId, c: Choice, s': State)
    requires t in s.threads && s.threads[t] == Reader(read, a) && ReadStep(s, t, read, a, c) == Some(s')
    requires NamesOk(s, s.threads[t])
    ensures Evolves(s, t, s')
  {
    hide Evolves;
    var s1 := Shift(s, t, s');
    ShiftEvolves(s, t, s');
    var s2 := SetAtt(s1, a, s'.atts[a]);
    AttEvolvesIn(s, t, s1, a, s'.atts[a]);
    if read == Reconnecting && c.ok {
      SpawnEvolves(s, t, s2, c.reader, Reader(Receiving, a));
      assert Go(s2, c.reader, Reader(Receiving, a)).threads == s'.threads;
    } else {
      assert s2.atts == s'.atts && s2.threads == s'.threads;
    }
  }

  // ---- The goroutine that moved, and the attachments ---------------------------------------------

  lemma LifeHolds(s: State, t: Tid, life: LifeStage, rest: set<AttId>, c: Choice, s': State)
    requires t in s.threads && s.threads[t] == Life(life, rest) && LifeStep(s, t, life, rest, c) == Some(s')
    requires LocksOk(s, t, s.threads[t]) && NamesOk(s, s.threads[t]) && WalkOk(s, s.threads[t])
    requires RegistryOk(s)
    ensures t in s'.threads ==>
              LocksOk(s', t, s'.threads[t]) && NamesOk(s', s'.threads[t]) && KeysOk(s', s'.threads[t])
  {
  }

  lemma LifeStands(s: State, t: Tid, life: LifeStage, rest: set<AttId>, c: Choice, s': State)
    requires t in s.threads && s.threads[t] == Life(life, rest) && LifeStep(s, t, life, rest, c) == Some(s')
    requires LocksOk(s, t, s.threads[t]) && NamesOk(s, s.threads[t]) && WalkOk(s, s.threads[t])
    requires PipelinesOk(s) && RegistryOk(s)
    ensures t in s'.threads ==>
              WalkOk(s', s'.threads[t]) && RetireOk(s', s'.threads[t]) && LiveOk(s', s'.threads[t])
  {
    AllRegistered(s);
  }

  /** A listing of the registry misses nothing and lists only published attachments. */
  lemma AllRegistered(s: State)
    requires RegistryOk(s)
    ensures AllPublished(s, Listing(s)) && Covered(s, Listing(s))
    ensures forall k :: k in s.registry ==> s.registry[k] in Listing(s)
  {
  }

  lemma LifeShared(s: State, t: Tid, life: LifeStage, rest: set<AttId>, c: Choice, s': State)
    requires t in s.threads && s.threads[t] == Life(life, rest) && LifeStep(s, t, life, rest, c) == Some(s')
    requires LocksOk(s, t, s.threads[t]) && NamesOk(s, s.threads[t]) && WalkOk(s, s.threads[t])
    requires PipelinesOk(s) && RegistryOk(s)
    ensures PipelinesOk(s') && RegistryOk(s')
  {
  }

  lemma MarkHolds(s: State, t: Tid, mark: MarkStage, k: Key, g: int, c: Choice, s': State)
    requires t in s.threads && s.threads[t] == Mark(mark, k, g) && MarkStep(s, t, mark, k, g, c) == Some(s')
    requires LocksOk(s, t, s.threads[t]) && NamesOk(s, s.threads[t]) && KeysOk(s, s.threads[t])
    requires RegistryOk(s)
    ensures t in s'.threads ==> LocksOk(s', t, s'.threads[t]) && NamesOk(s', s'.threads[t])
  {
  }

  lemma MarkKeys(s: State, t: Tid, mark: MarkStage, k: Key, g: int, c: Choice, s': State)
    requires t in s.threads && s.threads[t] == Mark(mark, k, g) && MarkStep(s, t, mark, k, g, c) == Some(s')
    requires LocksOk(s, t, s.threads[t]) && NamesOk(s, s.threads[t]) && KeysOk(s, s.threads[t])
    requires RegistryOk(s)
    ensures t in s'.threads ==> KeysOk(s', s'.threads[t])
  {
  }

  lemma MarkStands(s: State, t: Tid, mark: MarkStage, k: Key, g: int, c: Choice, s': State)
    requires t in s.threads && s.threads[t] == Mark(mark, k, g) && MarkStep(s, t, mark, k, g, c) == Some(s')
    requires LocksOk(s, t, s.threads[t]) && NamesOk(s, s.threads[t]) && KeysOk(s, s.threads[t])
    requires PipelinesOk(s) && RegistryOk(s)
    ensures t in s'.threads ==>
              WalkOk(s', s'.threads[t]) && RetireOk(s', s'.threads[t]) && LiveOk(s', s'.threads[t])
  {
  }

  lemma MarkShared(s: State, t: Tid, mark: MarkStage, k: Key, g: int, c: Choice, s': State)
    requires t in s.threads && s.threads[t] == Mark(mark, k, g) && MarkStep(s, t, mark, k, g, c) == Some(s')
    requires LocksOk(s, t, s.threads[t]) && NamesOk(s, s.threads[t]) && KeysOk(s, s.threads[t])
    requires PipelinesOk(s) && RegistryOk(s)
    ensures PipelinesOk(s') && RegistryOk(s')
  {
  }

  lemma BuildLocks(s: State, t: Tid, build: BuildStage, k: Key, g: int, a: AttId, c: Choice, s': State)
    requires t in s.threads && s.threads[t] == Build(build, k, g, a) && BuildStep(s, t, build, k, g, a, c) == Some(s')
    requires LocksOk(s, t, s.threads[t]) && NamesOk(s, s.threads[t]) && KeysOk(s, s.threads[t])
    ensures t in s'.threads ==> LocksOk(s', t, s'.threads[t])
  {
  }

  lemma BuildNames(s: State, t: Tid, build: BuildStage, k: Key, g: int, a: AttId, c: Choice, s': State)
    requires t in s.threads && s.threads[t] == Build(build, k, g, a) && BuildStep(s, t, build, k, g, a, c) == Some(s')
    requires LocksOk(s, t, s.threads[t]) && NamesOk(s, s.threads[t]) && KeysOk(s, s.threads[t])
    ensures t in s'.threads ==> NamesOk(s', s'.threads[t])
  {
  }

  lemma BuildKeys(s: State, t: Tid, build: BuildStage, k: Key, g: int, a: AttId, c: Choice, s': State)
    requires t in s.threads && s.threads[t] == Build(build, k, g, a) && BuildStep(s, t, build, k, g, a, c) == Some(s')
    requires LocksOk(s, t, s.threads[t]) && NamesOk(s, s.threads[t]) && KeysOk(s, s.threads[t])
    ensures t in s'.threads ==> KeysOk(s', s'.threads[t])
  {
  }

  lemma BuildStands(s: State, t: Tid, build: BuildStage, k: Key, g: int, a: AttId, c: Choice, s': State)
    requires t in s.threads && s.threads[t] == Build(build, k, g, a) && BuildStep(s, t, build, k, g, a, c) == Some(s')
    requires LocksOk(s, t, s.threads[t]) && NamesOk(s, s.threads[t]) && KeysOk(s, s.threads[t])
    requires PipelinesOk(s) && RegistryOk(s)
    ensures t in s'.threads ==>
              WalkOk(s', s'.threads[t]) && RetireOk(s', s'.threads[t]) && LiveOk(s', s'.threads[t])
  {
  }

  lemma BuildShared(s: State, t: Tid, build: BuildStage, k: Key, g: int, a: AttId, c: Choice, s': State)
    requires t in s.threads && s.threads[t] == Build(build, k, g, a) && BuildStep(s, t, build, k, g, a, c) == Some(s')
    requires LocksOk(s, t, s.threads[t]) && NamesOk(s, s.threads[t]) && KeysOk(s, s.threads[t])
    requires PipelinesOk(s) && RegistryOk(s)
    requires SlotOf(s.threads[t]).Some? ==> a in s.atts && s.atts[a].readers >= 1
    ensures PipelinesOk(s') && RegistryOk(s')
  {
  }

  lemma UseHolds(s: State, t: Tid, use: UseStage, a: AttId, c: Choice, s': State)
    requires t in s.threads && s.threads[t] == Using(use, a) && UseStep(s, t, use, a, c) == Some(s')
    requires LocksOk(s, t, s.threads[t]) && NamesOk(s, s.threads[t]) && LiveOk(s, s.threads[t])
    ensures t in s'.threads ==>
              LocksOk(s', t, s'.threads[t]) && NamesOk(s', s'.threads[t]) && KeysOk(s', s'.threads[t])
  {
  }

  lemma UseStands(s: State, t: Tid, use: UseStage, a: AttId, c: Choice, s': State)
    requires t in s.threads && s.threads[t] == Using(use, a) && UseStep(s, t, use, a, c) == Some(s')
    requires LocksOk(s, t, s.threads[t]) && NamesOk(s, s.threads[t]) && LiveOk(s, s.threads[t])
    requires PipelinesOk(s) && RegistryOk(s)
    ensures t in s'.threads ==>
              WalkOk(s', s'.threads[t]) && RetireOk(s', s'.threads[t]) && LiveOk(s', s'.threads[t])
  {
  }

  lemma UseShared(s: State, t: Tid, use: UseStage, a: AttId, c: Choice, s': State)
    requires t in s.threads && s.threads[t] == Using(use, a) && UseStep(s, t, use, a, c) == Some(s')
    requires LocksOk(s, t, s.threads[t]) && NamesOk(s, s.threads[t]) && LiveOk(s, s.threads[t])
    requires PipelinesOk(s) && RegistryOk(s)
    ensures PipelinesOk(s') && RegistryOk(s')
  {
  }

  lemma RetireLocks(s: State, t: Tid, phase: Phase, a: AttId, back: Return, s': State)
    requires t in s.threads && s.threads[t] == Retire(phase, a, back) && RetireStep(s, t, phase, a, back) == Some(s')
    requires ThreadOk(s, t, s.threads[t])
    ensures t in s'.threads ==> LocksOk(s', t, s'.threads[t])
  {
  }

  lemma RetireNames(s: State, t: Tid, phase: Phase, a: AttId, back: Return, s': State)
    requires t in s.threads && s.threads[t] == Retire(phase, a, back) && RetireStep(s, t, phase, a, back) == Some(s')
    requires ThreadOk(s, t, s.threads[t])
    ensures t in s'.threads ==> NamesOk(s', s'.threads[t])
  {
  }

  lemma RetireKeys(s: State, t: Tid, phase: Phase, a: AttId, back: Return, s': State)
    requires t in s.threads && s.threads[t] == Retire(phase, a, back) && RetireStep(s, t, phase, a, back) == Some(s')
    requires ThreadOk(s, t, s.threads[t])
    ensures t in s'.threads ==> KeysOk(s', s'.threads[t])
  {
  }

  lemma RetireStands(s: State, t: Tid, phase: Phase, a: AttId, back: Return, s': State)
    requires t in s.threads && s.threads[t] == Retire(phase, a, back) && RetireStep(s, t, phase, a, back) == Some(s')
    requires ThreadOk(s, t, s.threads[t])
    requires PipelinesOk(s) && RegistryOk(s)
    ensures t in s'.threads ==>
              WalkOk(s', s'.threads[t]) && RetireOk(s', s'.threads[t]) && LiveOk(s', s'.threads[t])
  {
  }

  lemma RetireShared(s: State, t: Tid, phase: Phase, a: AttId, back: Return, s': State)
    requires t in s.threads && s.threads[t] == Retire(phase, a, back) && RetireStep(s, t, phase, a, back) == Some(s')
    requires ThreadOk(s, t, s.threads[t])
    requires PipelinesOk(s) && RegistryOk(s)
    ensures PipelinesOk(s') && RegistryOk(s')
  {
  }

  lemma ReadHolds(s: State, t: Tid, read: ReadStage, a: AttId, c: Choice, s': State)
    requires t in s.threads && s.threads[t] == Reader(read, a) && ReadStep(s, t, read, a, c) == Some(s')
    requires NamesOk(s, s.threads[t])
    ensures t in s'.threads ==>
              LocksOk(s', t, s'.threads[t]) && NamesOk(s', s'.threads[t]) && KeysOk(s', s'.threads[t])
  {
  }

  lemma ReadStands(s: State, t: Tid, read: ReadStage, a: AttId, c: Choice, s': State)
    requires t in s.threads && s.threads[t] == Reader(read, a) && ReadStep(s, t, read, a, c) == Some(s')
    requires NamesOk(s, s.threads[t])
    requires PipelinesOk(s) && RegistryOk(s)
    ensures t in s'.threads ==>
              WalkOk(s', s'.threads[t]) && RetireOk(s', s'.threads[t]) && LiveOk(s', s'.threads[t])
  {
  }

  lemma ReadShared(s: State, t: Tid, read: ReadStage, a: AttId, c: Choice, s': State)
    requires t in s.threads && s.threads[t] == Reader(read, a) && ReadStep(s, t, read, a, c) == Some(s')
    requires NamesOk(s, s.threads[t])
    requires PipelinesOk(s) && RegistryOk(s)
    requires SlotOf(s.threads[t]).Some? ==> a in s.atts && s.atts[a].readers >= 1
    ensures PipelinesOk(s') && RegistryOk(s')
  {
  }


  // ---- The conditions on all goroutines together ----------------------------------------------------

  /** The marks, debts and slots of `t` before and after one of its steps. */
  ghost predicate Accounts(s: State, t: Tid, s': State) {
    var p, q := PcOf(s, t), PcOf(s', t);
    && (MarkOf(q).Some? ==> MarkOf(q) == MarkOf(p) || MarkOf(q).value !in s.attaching)
    && (OwesOf(p).Some? ==>
          || OwesOf(q) == OwesOf(p)
          || (OwesOf(p).value in s'.atts && s'.atts[OwesOf(p).value].stopOnce == Finished)
          || OwnOf(p) == OwesOf(p))
    && (forall k :: k in s.registry && !(k in s'.registry && s'.registry[k] == s.registry[k]) ==>
          || OwesOf(q) == Some(s.registry[k])
          || (s.registry[k] in s.atts && s.atts[s.registry[k]].stopOnce == Finished))
    && (forall a :: a in s'.atts && s'.atts[a].published ==>
          (a in s.atts && s.atts[a].published) || Registered(s', a))
    && (forall u :: u != t && u in s'.threads && u !in s.threads ==>
          s'.threads[u].Reader? && s'.threads[u].a in s'.atts && s'.atts[s'.threads[u].a].published)
  }

  lemma MarksKept(s: State, t: Tid, s': State)
    requires Inv(s) && Evolves(s, t, s') && Accounts(s, t, s')
    ensures MarksUnique(s')
  {
    forall u, v | u in s'.threads && v in s'.threads && u != v && MarkOf(s'.threads[u]).Some?
      ensures MarkOf(s'.threads[u]) != MarkOf(s'.threads[v])
    {
      if u in s.threads { assert ThreadOk(s, u, s.threads[u]); }
      if v in s.threads { assert ThreadOk(s, v, s.threads[v]); }
    }
  }

  lemma DebtsKept(s: State, t: Tid, s': State)
    requires Inv(s) && Evolves(s, t, s') && Accounts(s, t, s')
    ensures DebtsOk(s')
  {
    forall a | a in s'.atts && s'.atts[a].published
      ensures Registered(s', a) || s'.atts[a].stopOnce == Finished || Owed(s', a)
    {
    }
  }

  function Bit(b: bool): (n: int) {
    if b then 1 else 0
  }

  /** The goroutines other than `t` that a step of `t` started, counted for `a`. */
  function Newcomers(s: State, t: Tid, s': State, a: AttId): (r: set<Tid>) {
    set u | u in s'.threads && u !in s.threads && u != t && SlotOf(s'.threads[u]) == Some(a)
  }

  ghost predicate Balanced(s: State, t: Tid, s': State) {
    forall a :: a in s'.atts ==>
      s'.atts[a].readers == (if a in s.atts then s.atts[a].readers else 0)
        - Bit(SlotOf(PcOf(s, t)) == Some(a)) + Bit(SlotOf(PcOf(s', t)) == Some(a)) + |Newcomers(s, t, s', a)|
  }

  lemma Recount(h: set<Tid>, h': set<Tid>, n: set<Tid>, t: Tid)
    requires h' - {t} == (h - {t}) + n && (h - {t}) !! n
    ensures |h'| == |h| - Bit(t in h) + Bit(t in h') + |n|
  {
    assert |h - {t}| == |h| - Bit(t in h);
    assert |h' - {t}| == |h'| - Bit(t in h');
  }

  lemma HoldersChange(s: State, t: Tid, s': State, a: AttId)
    requires ThreadsEvolve(s, t, s')
    ensures |Holders(s'.threads, a)| == |Holders(s.threads, a)|
              - Bit(SlotOf(PcOf(s, t)) == Some(a)) + Bit(SlotOf(PcOf(s', t)) == Some(a)) + |Newcomers(s, t, s', a)|
  {
    hide DropOf;
    var h, h', n := Holders(s.threads, a), Holders(s'.threads, a), Newcomers(s, t, s', a);
    OtherHolders(s, t, s', a);
    Recount(h, h', n, t);
  }

  lemma OtherHolders(s: State, t: Tid, s': State, a: AttId)
    requires forall u :: u != t && u in s.threads ==> u in s'.threads && s'.threads[u] == s.threads[u]
    ensures Holders(s'.threads, a) - {t} == (Holders(s.threads, a) - {t}) + Newcomers(s, t, s', a)
    ensures Holders(s.threads, a) - {t} !! Newcomers(s, t, s', a)
  {
    hide SlotOf;
    var h, h', n := Holders(s.threads, a), Holders(s'.threads, a), Newcomers(s, t, s', a);
    forall u | u in h && u != t ensures u in h' {
      assert u in s'.threads && s'.threads[u] == s.threads[u];
    }
    forall u | u in h' && u != t ensures u in h || u in n {
      assert u in s.threads ==> s'.threads[u] == s.threads[u];
    }
  }

  lemma CountsKept(s: State, t: Tid, s': State)
    requires ThreadsOk(s) && CountsOk(s) && ThreadsEvolve(s, t, s') && Balanced(s, t, s')
    ensures CountsOk(s')
  {
    forall a | a in s'.atts ensures s'.atts[a].readers == |Holders(s'.threads, a)| {
      HoldersChange(s, t, s', a);
      if a !in s.atts {
        NoHolders(s, a);
      }
    }
  }

  lemma NoHolders(s: State, a: AttId)
    requires ThreadsOk(s) && a !in s.atts
    ensures Holders(s.threads, a) == {}
  {
    forall t | t in s.threads ensures SlotOf(s.threads[t]) != Some(a) {
      assert NamesOk(s, s.threads[t]);
    }
  }

  /** Whoever is counted keeps the count above zero, and with it the pump draining. */
  lemma SlotKeepsPump(s: State, t: Tid, a: AttId)
    requires CountsOk(s) && PipelinesOk(s) && t in s.threads && SlotOf(s.threads[t]) == Some(a) && a in s.atts
    ensures s.atts[a].readers >= 1 && s.atts[a].pump == Draining
  {
    var h := Holders(s.threads, a);
    assert h == (h - {t}) + {t};
  }

  lemma NoNewcomers(s: State, t: Tid, s': State)
    requires t in s.threads && s'.threads == Shift(s, t, s').threads
    ensures forall a :: Newcomers(s, t, s', a) == {}
  {
  }

  lemma OneNewcomer(s: State, t: Tid, s': State, r: Tid, a: AttId)
    requires t in s.threads && r !in s.threads && t in s'.threads
    requires s'.threads == s.threads[r := Reader(Receiving, a)][t := s'.threads[t]]
    ensures Newcomers(s, t, s', a) == {r} && forall b :: b != a ==> Newcomers(s, t, s', b) == {}
  {
  }

  lemma LifeBalanced(s: State, t: Tid, life: LifeStage, rest: set<AttId>, c: Choice, s': State)
    requires t in s.threads && s.threads[t] == Life(life, rest) && LifeStep(s, t, life, rest, c) == Some(s')
    ensures Balanced(s, t, s')
  {
    NoNewcomers(s, t, s');
    hide Newcomers;
  }

  lemma LifeAccounts(s: State, t: Tid, life: LifeStage, rest: set<AttId>, c: Choice, s': State)
    requires t in s.threads && s.threads[t] == Life(life, rest) && LifeStep(s, t, life, rest, c) == Some(s')
    requires LocksOk(s, t, s.threads[t]) && NamesOk(s, s.threads[t]) && WalkOk(s, s.threads[t]) && RegistryOk(s)
    ensures Accounts(s, t, s')
  {
  }

  lemma MarkBalanced(s: State, t: Tid, mark: MarkStage, k: Key, g: int, c: Choice, s': State)
    requires t in s.threads && s.threads[t] == Mark(mark, k, g) && MarkStep(s, t, mark, k, g, c) == Some(s')
    ensures Balanced(s, t, s')
  {
    NoNewcomers(s, t, s');
    hide Newcomers;
  }

  lemma MarkAccounts(s: State, t: Tid, mark: MarkStage, k: Key, g: int, c: Choice, s': State)
    requires t in s.threads && s.threads[t] == Mark(mark, k, g) && MarkStep(s, t, mark, k, g, c) == Some(s')
    requires NamesOk(s, s.threads[t]) && KeysOk(s, s.threads[t]) && RegistryOk(s)
    ensures Accounts(s, t, s')
  {
  }

  lemma BuildBalanced(s: State, t: Tid, build: BuildStage, k: Key, g: int, a: AttId, c: Choice, s': State)
    requires t in s.threads && s.threads[t] == Build(build, k, g, a) && BuildStep(s, t, build, k, g, a, c) == Some(s')
    ensures Balanced(s, t, s')
  {
    if build == Handshaking && c.ok {
      OneNewcomer(s, t, s', c.reader, a);
    } else {
      NoNewcomers(s, t, s');
    }
    hide Newcomers;
  }

  lemma BuildAccounts(s: State, t: Tid, build: BuildStage, k: Key, g: int, a: AttId, c: Choice, s': State)
    requires t in s.threads && s.threads[t] == Build(build, k, g, a) && BuildStep(s, t, build, k, g, a, c) == Some(s')
    requires NamesOk(s, s.threads[t]) && KeysOk(s, s.threads[t])
    ensures Accounts(s, t, s')
  {
  }

  lemma UseBalanced(s: State, t: Tid, use: UseStage, a: AttId, c: Choice, s': State)
    requires t in s.threads && s.threads[t] == Using(use, a) && UseStep(s, t, use, a, c) == Some(s')
    ensures Balanced(s, t, s')
  {
    NoNewcomers(s, t, s');
    hide Newcomers;
  }

  lemma UseAccounts(s: State, t: Tid, use: UseStage, a: AttId, c: Choice, s': State)
    requires t in s.threads && s.threads[t] == Using(use, a) && UseStep(s, t, use, a, c) == Some(s')
    requires NamesOk(s, s.threads[t]) && LiveOk(s, s.threads[t])
    ensures Accounts(s, t, s')
  {
  }

  lemma RetireBalanced(s: State, t: Tid, phase: Phase, a: AttId, back: Return, s': State)
    requires t in s.threads && s.threads[t] == Retire(phase, a, back) && RetireStep(s, t, phase, a, back) == Some(s')
    ensures Balanced(s, t, s')
  {
    NoNewcomers(s, t, s');
    hide Newcomers;
  }

  lemma RetireAccounts(s: State, t: Tid, phase: Phase, a: AttId, back: Return, s': State)
    requires t in s.threads && s.threads[t] == Retire(phase, a, back) && RetireStep(s, t, phase, a, back) == Some(s')
    requires NamesOk(s, s.threads[t]) && RetireOk(s, s.threads[t])
    ensures Accounts(s, t, s')
  {
  }

  lemma ReadBalanced(s: State, t: Tid, read: ReadStage, a: AttId, c: Choice, s': State)
    requires t in s.threads && s.threads[t] == Reader(read, a) && ReadStep(s, t, read, a, c) == Some(s')
    ensures Balanced(s, t, s')
  {
    if read == Reconnecting && c.ok {
      OneNewcomer(s, t, s', c.reader, a);
    } else {
      NoNewcomers(s, t, s');
    }
    hide Newcomers;
  }

  lemma ReadAccounts(s: State, t: Tid, read: ReadStage, a: AttId, c: Choice, s': State)
    requires t in s.threads && s.threads[t] == Reader(read, a) && ReadStep(s, t, read, a, c) == Some(s')
    requires NamesOk(s, s.threads[t])
    ensures Accounts(s, t, s')
  {
  }


  // ---- Every step keeps the invariant -----------------------------------------------------------------

  lemma NewReaderOk(s: State, t: Tid, a: AttId)
    requires a in s.atts && s.atts[a].published
    ensures forall read :: ThreadOk(s, t, Reader(read, a))
  {
  }

  lemma Combined(s: State, t: Tid, s': State)
    requires Inv(s) && Evolves(s, t, s') && Accounts(s, t, s') && Balanced(s, t, s')
    requires t in s'.threads ==> ThreadOk(s', t, s'.threads[t])
    requires PipelinesOk(s') && RegistryOk(s')
    ensures Inv(s')
  {
    MarksKept(s, t, s');
    DebtsKept(s, t, s');
    CountsKept(s, t, s');
    hide ThreadOk, PipelinesOk, RegistryOk, Balanced, MarksUnique, CountsOk, DebtsOk;
    forall u | u in s'.threads ensures ThreadOk(s', u, s'.threads[u]) {
      if u != t {
        if u in s.threads {
          OthersStable(s, t, s', u);
        } else {
          NewReaderOk(s', u, s'.threads[u].a);
        }
      }
    }
  }

  lemma StartKeepsInv(s: State, t: Tid, op: Op, s': State)
    requires Inv(s) && Starting(s, t, op) == Some(s')
    ensures Inv(s')
  {
    StartEvolves(s, t, op, s');
    StartAccounts(s, t, op, s');
    hide Evolves, Accounts, Balanced, ThreadOk;
    Combined(s, t, s');
  }

  lemma StartAccounts(s: State, t: Tid, op: Op, s': State)
    requires PipelinesOk(s) && RegistryOk(s) && Starting(s, t, op) == Some(s')
    ensures Accounts(s, t, s') && Balanced(s, t, s') && PipelinesOk(s') && RegistryOk(s')
    ensures t in s'.threads && ThreadOk(s', t, s'.threads[t])
  {
    assert forall a :: Newcomers(s, t, s', a) == {};
  }

  lemma LifeKeepsInv(s: State, t: Tid, life: LifeStage, rest: set<AttId>, c: Choice, s': State)
    requires Inv(s) && t in s.threads && s.threads[t] == Life(life, rest) && LifeStep(s, t, life, rest, c) == Some(s')
    ensures Inv(s')
  {
    assert ThreadOk(s, t, s.threads[t]);
    hide LocksOk, NamesOk, KeysOk, WalkOk, RetireOk, LiveOk, PipelinesOk, RegistryOk, Evolves, Accounts, Balanced,
         LifeStep;
    hide MarksUnique, CountsOk, DebtsOk;
    LifeEvolves(s, t, life, rest, c, s');
    LifeHolds(s, t, life, rest, c, s');
    LifeStands(s, t, life, rest, c, s');
    LifeShared(s, t, life, rest, c, s');
    LifeBalanced(s, t, life, rest, c, s');
    LifeAccounts(s, t, life, rest, c, s');
    Combined(s, t, s');
  }

  lemma MarkKeepsInv(s: State, t: Tid, mark: MarkStage, k: Key, g: int, c: Choice, s': State)
    requires Inv(s) && t in s.threads && s.threads[t] == Mark(mark, k, g) && MarkStep(s, t, mark, k, g, c) == Some(s')
    ensures Inv(s')
  {
    assert ThreadOk(s, t, s.threads[t]);
    hide LocksOk, NamesOk, KeysOk, WalkOk, RetireOk, LiveOk, PipelinesOk, RegistryOk, Evolves, Accounts, Balanced,
         MarkStep;
    hide MarksUnique, CountsOk, DebtsOk;
    MarkEvolves(s, t, mark, k, g, c, s');
    MarkHolds(s, t, mark, k, g, c, s');
    MarkKeys(s, t, mark, k, g, c, s');
    MarkStands(s, t, mark, k, g, c, s');
    MarkShared(s, t, mark, k, g, c, s');
    MarkBalanced(s, t, mark, k, g, c, s');
    MarkAccounts(s, t, mark, k, g, c, s');
    Combined(s, t, s');
  }

  lemma BuildKeepsInv(s: State, t: Tid, build: BuildStage, k: Key, g: int, a: AttId, c: Choice, s': State)
    requires Inv(s) && t in s.threads && s.threads[t] == Build(build, k, g, a)
    requires BuildStep(s, t, build, k, g, a, c) == Some(s')
    ensures Inv(s')
  {
    assert ThreadOk(s, t, s.threads[t]) && a in s.atts;
    if SlotOf(s.threads[t]).Some? {
      SlotKeepsPump(s, t, a);
    }
    hide LocksOk, NamesOk, KeysOk, WalkOk, RetireOk, LiveOk, PipelinesOk, RegistryOk, Evolves, Accounts, Balanced,
         BuildStep;
    hide MarksUnique, CountsOk, DebtsOk, SlotOf;
    BuildEvolves(s, t, build, k, g, a, c, s');
    BuildLocks(s, t, build, k, g, a, c, s');
    BuildNames(s, t, build, k, g, a, c, s');
    BuildKeys(s, t, build, k, g, a, c, s');
    BuildStands(s, t, build, k, g, a, c, s');
    BuildShared(s, t, build, k, g, a, c, s');
    BuildBalanced(s, t, build, k, g, a, c, s');
    BuildAccounts(s, t, build, k, g, a, c, s');
    Combined(s, t, s');
  }

  lemma UseKeepsInv(s: State, t: Tid, use: UseStage, a: AttId, c: Choice, s': State)
    requires Inv(s) && t in s.threads && s.threads[t] == Using(use, a) && UseStep(s, t, use, a, c) == Some(s')
    ensures Inv(s')
  {
    assert ThreadOk(s, t, s.threads[t]);
    hide LocksOk, NamesOk, KeysOk, WalkOk, RetireOk, LiveOk, PipelinesOk, RegistryOk, Evolves, Accounts, Balanced,
         UseStep;
    hide MarksUnique, CountsOk, DebtsOk;
    UseEvolves(s, t, use, a, c, s');
    UseHolds(s, t, use, a, c, s');
    UseStands(s, t, use, a, c, s');
    UseShared(s, t, use, a, c, s');
    UseBalanced(s, t, use, a, c, s');
    UseAccounts(s, t, use, a, c, s');
    Combined(s, t, s');
  }

  lemma RetireKeepsInv(s: State, t: Tid, phase: Phase, a: AttId, back: Return, s': State)
    requires Inv(s) && t in s.threads && s.threads[t] == Retire(phase, a, back)
    requires RetireStep(s, t, phase, a, back) == Some(s')
    ensures Inv(s')
  {
    assert ThreadOk(s, t, s.threads[t]);
    hide LocksOk, NamesOk, KeysOk, WalkOk, RetireOk, LiveOk, PipelinesOk, RegistryOk, Evolves, Accounts, Balanced,
         RetireStep;
    hide MarksUnique, CountsOk, DebtsOk;
    RetireEvolves(s, t, phase, a, back, s');
    RetireLocks(s, t, phase, a, back, s');
    RetireNames(s, t, phase, a, back, s');
    RetireKeys(s, t, phase, a, back, s');
    RetireStands(s, t, phase, a, back, s');
    RetireShared(s, t, phase, a, back, s');
    RetireBalanced(s, t, phase, a, back, s');
    RetireAccounts(s, t, phase, a, back, s');
    Combined(s, t, s');
  }

  lemma ReadKeepsInv(s: State, t: Tid, read: ReadStage, a: AttId, c: Choice, s': State)
    requires Inv(s) && t in s.threads && s.threads[t] == Reader(read, a) && ReadStep(s, t, read, a, c) == Some(s')
    ensures Inv(s')
  {
    assert ThreadOk(s, t, s.threads[t]) && a in s.atts;
    SlotKeepsPump(s, t, a);
    hide LocksOk, NamesOk, KeysOk, WalkOk, RetireOk, LiveOk, PipelinesOk, RegistryOk, Evolves, Accounts, Balanced,
         ReadStep;
    hide MarksUnique, CountsOk, DebtsOk;
    ReadEvolves(s, t, read, a, c, s');
    ReadHolds(s, t, read, a, c, s');
    ReadStands(s, t, read, a, c, s');
    ReadShared(s, t, read, a, c, s');
    ReadBalanced(s, t, read, a, c, s');
    ReadAccounts(s, t, read, a, c, s');
    Combined(s, t, s');
  }

  /** A change to the pump or to the cancellation that no goroutine's standing depends on. */
  ghost predicate Outside(x: Attachment, y: Attachment) {
    && y == x.(pump := y.pump, cancelled := y.cancelled)
    && (y.pump == x.pump || (x.pump == StopAsked && y.pump == Exited))
    && (x.cancelled ==> y.cancelled)
  }

  lemma OutsideThread(s: State, a: AttId, att: Attachment, t: Tid)
    requires ThreadsOk(s) && a in s.atts && Outside(s.atts[a], att) && t in s.threads
    ensures ThreadOk(SetAtt(s, a, att), t, s.threads[t])
  {
    assert ThreadOk(s, t, s.threads[t]);
    hide SyncOf, RefOf, OwnOf, PendingOf, MarkOf, DropOf, HoldsAttachingMu, HoldsLifecycleMu;
    var s' := SetAtt(s, a, att);
    if s.threads[t].Using? || s.threads[t].Retire? {
      assert Registered(s', s.threads[t].a) == Registered(s, s.threads[t].a);
      assert Dropped(s', s.threads[t].a) == Dropped(s, s.threads[t].a);
    }
  }

  lemma OutsideKeepsInv(s: State, a: AttId, att: Attachment)
    requires Inv(s) && a in s.atts && Outside(s.atts[a], att)
    ensures Inv(SetAtt(s, a, att))
  {
    var s' := SetAtt(s, a, att);
    forall t | t in s'.threads ensures ThreadOk(s', t, s'.threads[t]) {
      OutsideThread(s, a, att, t);
    }
    hide ThreadOk, SlotOf, MarkOf, OwesOf;
    forall b | b in s'.atts && s'.atts[b].published
      ensures Registered(s', b) || s'.atts[b].stopOnce == Finished || Owed(s', b)
    {
      assert Registered(s', b) == Registered(s, b) && Owed(s', b) == Owed(s, b);
    }
  }

  /** Whatever happens next, in any of the operations, the invariant survives it. */
  lemma StepKeepsInv(s: State, e: Event, s': State)
    requires Inv(s) && Next(s, e) == Some(s')
    ensures Inv(s')
  {
    hide Inv, Starting, LifeStep, MarkStep, BuildStep, UseStep, RetireStep, ReadStep;
    match e
    case Start(t, op) => StartKeepsInv(s, t, op, s');
    case PumpExit(a) => OutsideKeepsInv(s, a, s'.atts[a]);
    case UserCancel(a) => OutsideKeepsInv(s, a, s'.atts[a]);
    case Move(t, c) =>
      match s.threads[t]
      case Life(life, rest) => LifeKeepsInv(s, t, life, rest, c, s');
      case Mark(mark, k, g) => MarkKeepsInv(s, t, mark, k, g, c, s');
      case Build(build, k, g, a) => BuildKeepsInv(s, t, build, k, g, a, c, s');
      case Using(use, a) => UseKeepsInv(s, t, use, a, c, s');
      case Retire(phase, a, back) => RetireKeepsInv(s, t, phase, a, back, s');
      case Reader(read, a) => ReadKeepsInv(s, t, read, a, c, s');
  }

  // ---- What holds in every run ------------------------------------------------------------------------

  /** A run: states, and the events that lead from each to the next, from the new client on. */
  ghost predicate Run(states: seq<State>, events: seq<Event>) {
    && |states| == |events| + 1 && states[0] == Init()
    && forall i :: 0 <= i < |events| ==> Next(states[i], events[i]) == Some(states[i + 1])
  }

  lemma {:induction false} RunKeepsInv(states: seq<State>, events: seq<Event>, i: nat)
    requires Run(states, events) && i < |states|
    ensures Inv(states[i])
  {
    if i == 0 {
      InitOk();
    } else {
      RunKeepsInv(states, events, i - 1);
      hide Inv, Next;
      StepKeepsInv(states[i - 1], events[i - 1], states[i]);
    }
  }

  /** The pump drains the document's events wherever someone may publish one. */
  lemma PublisherHasPump(states: seq<State>, events: seq<Event>, i: nat, t: Tid)
    requires Run(states, events) && i < |states| && t in states[i].threads
    requires PublishesOn(states[i].threads[t]).Some?
    ensures var a := PublishesOn(states[i].threads[t]).value;
            a in states[i].atts && states[i].atts[a].pump == Draining
  {
    RunKeepsInv(states, events, i);
    hide Run;
    var s := states[i];
    var pc := s.threads[t];
    assert ThreadOk(s, t, pc);
    if SlotOf(pc).Some? {
      SlotKeepsPump(s, t, pc.a);
    }
  }

  /** Past `lockLiveAttachment`, and until it moves on itself, a goroutine has the lock and a running pump. */
  lemma LiveUntilItMoves(states: seq<State>, events: seq<Event>, i: nat, j: nat, t: Tid, a: AttId)
    requires Run(states, events) && i <= j < |states|
    requires t in states[i].threads && states[i].threads[t] == Using(Live, a)
    requires forall n :: i <= n < j ==> !(events[n].Move? && events[n].t == t)
    ensures t in states[j].threads && states[j].threads[t] == Using(Live, a)
    ensures a in states[j].atts
    ensures states[j].atts[a].syncMu == Some(t) && states[j].atts[a].stopOnce == Unused
    ensures states[j].atts[a].pump == Draining
    decreases j - i
  {
    RunKeepsInv(states, events, j);
    if i < j {
      LiveUntilItMoves(states, events, i, j - 1, t, a);
      RunKeepsInv(states, events, j - 1);
      OnlyTheMoverMoves(states[j - 1], events[j - 1], states[j], t);
    }
    hide Run;
    assert ThreadOk(states[j], t, states[j].threads[t]);
  }

  lemma MoveEvolves(s: State, t: Tid, c: Choice, s': State)
    requires Inv(s) && t in s.threads && Moving(s, t, c) == Some(s')
    ensures Evolves(s, t, s')
  {
    assert ThreadOk(s, t, s.threads[t]);
    hide Evolves, ThreadsOk, RegistryOk, LocksOk, NamesOk, KeysOk, WalkOk, RetireOk, LiveOk;
    hide LifeStep, MarkStep, BuildStep, UseStep, RetireStep, ReadStep;
    match s.threads[t]
    case Life(life, rest) => LifeEvolves(s, t, life, rest, c, s');
    case Mark(mark, k, g) => MarkEvolves(s, t, mark, k, g, c, s');
    case Build(build, k, g, a) => BuildEvolves(s, t, build, k, g, a, c, s');
    case Using(use, a) => UseEvolves(s, t, use, a, c, s');
    case Retire(phase, a, back) => RetireEvolves(s, t, phase, a, back, s');
    case Reader(read, a) => ReadEvolves(s, t, read, a, c, s');
  }

  lemma OnlyTheMoverMoves(s: State, e: Event, s': State, u: Tid)
    requires Inv(s) && Next(s, e) == Some(s') && u in s.threads && !(e.Move? && e.t == u)
    ensures u in s'.threads && s'.threads[u] == s.threads[u]
  {
    hide Inv, Moving, AttsEvolve, RegistryEvolves, StatusEvolves, AttachingEvolves, DropOf;
    if e.Move? {
      MoveEvolves(s, e.t, e.choice, s');
    }
  }

  /** Nothing but a teardown touches the stop-once of a pipeline that is up. */
  lemma OnlyRetireStops(s: State, t: Tid, c: Choice, s': State, a: AttId)
    requires t in s.threads && Moving(s, t, c) == Some(s') && a in s.atts && a in s'.atts
    requires s'.atts[a].stopOnce != s.atts[a].stopOnce
    ensures s.threads[t].Retire? && s.threads[t].a == a
  {
    match s.threads[t]
    case Life(life, rest) => hide MarkStep, BuildStep, UseStep, RetireStep, ReadStep;
    case Mark(mark, k, g) => hide LifeStep, BuildStep, UseStep, RetireStep, ReadStep;
    case Build(build, k, g, a') => hide LifeStep, MarkStep, UseStep, RetireStep, ReadStep;
    case Using(use, a') => hide LifeStep, MarkStep, BuildStep, RetireStep, ReadStep;
    case Retire(phase, a', back) => hide LifeStep, MarkStep, BuildStep, UseStep, ReadStep;
    case Reader(read, a') => hide LifeStep, MarkStep, BuildStep, UseStep, RetireStep;
  }

  /**
   A published attachment's pipeline is retired only by the holder of its `syncMu`, and only
   once it is out of the registry or the client has left the activated status.
   */
  lemma RetiredOnlyWhenOutOfUse(states: seq<State>, events: seq<Event>, i: nat, a: AttId)
    requires Run(states, events) && i < |events|
    requires a in states[i].atts && states[i].atts[a].published && a in states[i + 1].atts
    requires states[i].atts[a].stopOnce == Unused && states[i + 1].atts[a].stopOnce != Unused
    ensures events[i].Move? && states[i].atts[a].syncMu == Some(events[i].t)
    ensures !Registered(states[i], a) || states[i].status != Activated
  {
    RunKeepsInv(states, events, i);
    hide Moving;
    assert events[i].Move? && events[i].t in states[i].threads;
    var t := events[i].t;
    OnlyRetireStops(states[i], t, events[i].choice, states[i + 1], a);
    hide Next, Run;
    assert ThreadOk(states[i], t, states[i].threads[t]);
  }

  /** The pump is asked to stop only when no reader is left and none can come. */
  lemma PumpOutlivesReaders(states: seq<State>, events: seq<Event>, i: nat, a: AttId, t: Tid)
    requires Run(states, events) && i < |states| && a in states[i].atts && states[i].atts[a].pump != Draining
    requires t in states[i].threads
    ensures SlotOf(states[i].threads[t]) != Some(a) && states[i].atts[a].readers == 0
  {
    RunKeepsInv(states, events, i);
    hide Run;
    if SlotOf(states[i].threads[t]) == Some(a) {
      SlotKeepsPump(states[i], t, a);
    }
  }

  /** Everything registered belongs to the activation that is on, and is up while it is on. */
  lemma RegistryIsCurrent(states: seq<State>, events: seq<Event>, i: nat, k: Key)
    requires Run(states, events) && i < |states| && k in states[i].registry
    ensures states[i].status != Deactivated
    ensures states[i].registry[k] in states[i].atts
    ensures var att := states[i].atts[states[i].registry[k]];
            && att.key == k && att.generation == states[i].generation
            && (states[i].status == Activated ==> att.stopOnce == Unused && att.pump == Draining)
  {
    RunKeepsInv(states, events, i);
    hide Run, ThreadsOk, CountsOk, DebtsOk, MarksUnique;
    var s := states[i];
    var a := s.registry[k];
    assert RegistryOk(s) && PipelinesOk(s);
    assert a in s.atts;
    assert PipelineOk(s.atts[a]);
  }

  /** No published pipeline is forgotten: it is registered, retired, or owed by a goroutine at work on it. */
  lemma NoPipelineForgotten(states: seq<State>, events: seq<Event>, i: nat, a: AttId)
    requires Run(states, events) && i < |states| && a in states[i].atts && states[i].atts[a].published
    ensures || Registered(states[i], a)
            || (states[i].atts[a].stopOnce == Finished && states[i].atts[a].pump == Exited)
            || (exists t :: t in states[i].threads && OwesOf(states[i].threads[t]) == Some(a))
    ensures states[i].status == Deactivated ==> !Registered(states[i], a)
  {
    RunKeepsInv(states, events, i);
    hide Run, ThreadsOk, CountsOk, MarksUnique;
  }

  // ---- No lock is left behind ---------------------------------------------------------------------

  ghost predicate SyncHeld(s: State, a: AttId)
    requires a in s.atts
  {
    s.atts[a].syncMu.Some? ==> SyncOf(PcOf(s, s.atts[a].syncMu.value)) == Some(a)
  }

  /** Every mutex that is taken is held by a goroutine that stands where it holds it. */
  ghost predicate HeldOk(s: State) {
    && (s.lifecycleMu.Some? ==> HoldsLifecycleMu(PcOf(s, s.lifecycleMu.value)))
    && (s.attachingMu.Some? ==> HoldsAttachingMu(PcOf(s, s.attachingMu.value)))
    && forall a :: a in s.atts ==> SyncHeld(s, a)
  }

  lemma StartHeld(s: State, t: Tid, op: Op, s': State)
    requires HeldOk(s) && Starting(s, t, op) == Some(s')
    ensures HeldOk(s')
  {
    forall a | a in s'.atts ensures SyncHeld(s', a) {
      assert SyncHeld(s, a);
    }
  }

  lemma LifeHeld(s: State, t: Tid, life: LifeStage, rest: set<AttId>, c: Choice, s': State)
    requires HeldOk(s) && t in s.threads && s.threads[t] == Life(life, rest)
             && LifeStep(s, t, life, rest, c) == Some(s')
    ensures HeldOk(s')
  {
    forall a | a in s'.atts ensures SyncHeld(s', a) {
      assert SyncHeld(s, a);
    }
  }

  lemma MarkHeld(s: State, t: Tid, mark: MarkStage, k: Key, g: int, c: Choice, s': State)
    requires HeldOk(s) && t in s.threads && s.threads[t] == Mark(mark, k, g)
             && MarkStep(s, t, mark, k, g, c) == Some(s')
    ensures HeldOk(s')
  {
    forall a | a in s'.atts ensures SyncHeld(s', a) {
      assert a in s.atts ==> SyncHeld(s, a);
    }
  }

  lemma BuildHeld(s: State, t: Tid, build: BuildStage, k: Key, g: int, a: AttId, c: Choice, s': State)
    requires HeldOk(s) && t in s.threads && s.threads[t] == Build(build, k, g, a)
    requires BuildStep(s, t, build, k, g, a, c) == Some(s')
    ensures HeldOk(s')
  {
    forall b | b in s'.atts ensures SyncHeld(s', b) {
      assert SyncHeld(s, b);
    }
  }

  lemma UseHeld(s: State, t: Tid, use: UseStage, a: AttId, c: Choice, s': State)
    requires HeldOk(s) && t in s.threads && s.threads[t] == Using(use, a) && UseStep(s, t, use, a, c) == Some(s')
    ensures HeldOk(s')
  {
    forall b | b in s'.atts ensures SyncHeld(s', b) {
      assert SyncHeld(s, b);
    }
  }

  lemma RetireHeld(s: State, t: Tid, phase: Phase, a: AttId, back: Return, s': State)
    requires HeldOk(s) && t in s.threads && s.threads[t] == Retire(phase, a, back)
    requires RetireStep(s, t, phase, a, back) == Some(s')
    ensures HeldOk(s')
  {
    forall b | b in s'.atts ensures SyncHeld(s', b) {
      assert SyncHeld(s, b);
    }
  }

  lemma ReadHeld(s: State, t: Tid, read: ReadStage, a: AttId, c: Choice, s': State)
    requires HeldOk(s) && t in s.threads && s.threads[t] == Reader(read, a) && ReadStep(s, t, read, a, c) == Some(s')
    ensures HeldOk(s')
  {
    forall b | b in s'.atts ensures SyncHeld(s', b) {
      assert SyncHeld(s, b);
    }
  }

  lemma OutsideHeld(s: State, a: AttId, att: Attachment)
    requires HeldOk(s) && a in s.atts && Outside(s.atts[a], att)
    ensures HeldOk(SetAtt(s, a, att))
  {
    var s' := SetAtt(s, a, att);
    forall b | b in s'.atts ensures SyncHeld(s', b) {
      assert SyncHeld(s, b);
    }
  }

  lemma StepHeld(s: State, e: Event, s': State)
    requires HeldOk(s) && Next(s, e) == Some(s')
    ensures HeldOk(s')
  {
    hide HeldOk, Starting, LifeStep, MarkStep, BuildStep, UseStep, RetireStep, ReadStep;
    match e
    case Start(t, op) => StartHeld(s, t, op, s');
    case PumpExit(a) => OutsideHeld(s, a, s'.atts[a]);
    case UserCancel(a) => OutsideHeld(s, a, s'.atts[a]);
    case Move(t, c) =>
      match s.threads[t]
      case Life(life, rest) => LifeHeld(s, t, life, rest, c, s');
      case Mark(mark, k, g) => MarkHeld(s, t, mark, k, g, c, s');
      case Build(build, k, g, a) => BuildHeld(s, t, build, k, g, a, c, s');
      case Using(use, a) => UseHeld(s, t, use, a, c, s');
      case Retire(phase, a, back) => RetireHeld(s, t, phase, a, back, s');
      case Reader(read, a) => ReadHeld(s, t, read, a, c, s');
  }

  lemma {:induction false} RunHeld(states: seq<State>, events: seq<Event>, i: nat)
    requires Run(states, events) && i < |states|
    ensures HeldOk(states[i])
  {
    if i > 0 {
      RunHeld(states, events, i - 1);
      hide HeldOk, Next;
      StepHeld(states[i - 1], events[i - 1], states[i]);
    }
  }

  // ---- Nothing half done is left behind ---------------------------------------------------------------

  /** Somebody is at work on the key that is marked as being attached. */
  ghost predicate Marker(s: State, k: Key) {
    exists t :: t in s.threads && MarkOf(s.threads[t]) == Some(k)
  }

  /** Somebody builds the attachment, or takes the unfinished one down. */
  ghost predicate Builder(s: State, a: AttId) {
    exists t :: t in s.threads && OwnOf(s.threads[t]) == Some(a)
  }

  ghost predicate Unfinished(s: State, a: AttId) {
    a in s.atts && !s.atts[a].published && s.atts[a].stopOnce != Finished
  }

  ghost predicate TracedOk(s: State) {
    && (forall k :: k in s.attaching ==> Marker(s, k))
    && (forall a :: Unfinished(s, a) ==> Builder(s, a))
  }

  /** What is marked or unfinished after a step of `t` was another's business before, or is that of `t`. */
  ghost predicate Hands(s: State, t: Tid, s': State) {
    && (forall k :: k in s'.attaching ==>
          (k in s.attaching && MarkOf(PcOf(s, t)) != Some(k)) || MarkOf(PcOf(s', t)) == Some(k))
    && (forall a :: Unfinished(s', a) ==>
          (Unfinished(s, a) && OwnOf(PcOf(s, t)) != Some(a)) || OwnOf(PcOf(s', t)) == Some(a))
  }

  lemma LifeHands(s: State, t: Tid, life: LifeStage, rest: set<AttId>, c: Choice, s': State)
    requires t in s.threads && s.threads[t] == Life(life, rest)
    requires LifeStep(s, t, life, rest, c) == Some(s')
    ensures Hands(s, t, s')
  {
  }

  lemma MarkHands(s: State, t: Tid, mark: MarkStage, k: Key, g: int, c: Choice, s': State)
    requires t in s.threads && s.threads[t] == Mark(mark, k, g)
    requires MarkStep(s, t, mark, k, g, c) == Some(s')
    ensures Hands(s, t, s')
  {
  }

  lemma BuildHands(s: State, t: Tid, build: BuildStage, k: Key, g: int, a: AttId, c: Choice, s': State)
    requires t in s.threads && s.threads[t] == Build(build, k, g, a)
    requires BuildStep(s, t, build, k, g, a, c) == Some(s')
    ensures Hands(s, t, s')
  {
  }

  lemma UseHands(s: State, t: Tid, use: UseStage, a: AttId, c: Choice, s': State)
    requires t in s.threads && s.threads[t] == Using(use, a)
    requires UseStep(s, t, use, a, c) == Some(s')
    ensures Hands(s, t, s')
  {
  }

  lemma RetireHands(s: State, t: Tid, phase: Phase, a: AttId, back: Return, s': State)
    requires t in s.threads && s.threads[t] == Retire(phase, a, back)
    requires RetireStep(s, t, phase, a, back) == Some(s') && RetireOk(s, s.threads[t])
    ensures Hands(s, t, s')
  {
  }

  lemma ReadHands(s: State, t: Tid, read: ReadStage, a: AttId, c: Choice, s': State)
    requires t in s.threads && s.threads[t] == Reader(read, a)
    requires ReadStep(s, t, read, a, c) == Some(s')
    ensures Hands(s, t, s')
  {
  }

  lemma MoveTraced(s: State, t: Tid, s': State)
    requires TracedOk(s) && Hands(s, t, s') && ThreadsEvolve(s, t, s')
    ensures TracedOk(s')
  {
    assert MarkOf(Mark(Entering, 0, 0)) == None && OwnOf(Mark(Entering, 0, 0)) == None;
    hide MarkOf, OwnOf, DropOf;
    forall k | k in s'.attaching ensures Marker(s', k) {
      if k in s.attaching && MarkOf(PcOf(s, t)) != Some(k) {
        var u :| u in s.threads && MarkOf(s.threads[u]) == Some(k);
        assert MarkOf(s'.threads[u]) == Some(k);
      }
    }
    forall a | Unfinished(s', a) ensures Builder(s', a) {
      if Unfinished(s, a) && OwnOf(PcOf(s, t)) != Some(a) {
        var u :| u in s.threads && OwnOf(s.threads[u]) == Some(a);
        assert OwnOf(s'.threads[u]) == Some(a);
      }
    }
  }

  lemma StartTraced(s: State, t: Tid, op: Op, s': State)
    requires TracedOk(s) && Starting(s, t, op) == Some(s')
    ensures TracedOk(s')
  {
    forall k | k in s'.attaching ensures Marker(s', k) {
      var u :| u in s.threads && MarkOf(s.threads[u]) == Some(k);
      assert s'.threads[u] == s.threads[u];
    }
    forall a | Unfinished(s', a) ensures Builder(s', a) {
      assert Unfinished(s, a);
      var u :| u in s.threads && OwnOf(s.threads[u]) == Some(a);
      assert s'.threads[u] == s.threads[u];
    }
  }

  lemma OutsideTraced(s: State, a: AttId, att: Attachment)
    requires TracedOk(s) && a in s.atts && Outside(s.atts[a], att)
    ensures TracedOk(SetAtt(s, a, att))
  {
    var s' := SetAtt(s, a, att);
    forall k | k in s'.attaching ensures Marker(s', k) {
      assert Marker(s, k);
    }
    forall b | Unfinished(s', b) ensures Builder(s', b) {
      assert Unfinished(s, b);
    }
  }

  lemma StepTraced(s: State, e: Event, s': State)
    requires Inv(s) && TracedOk(s) && Next(s, e) == Some(s')
    ensures TracedOk(s')
  {
    hide TracedOk, Hands, Starting, LifeStep, MarkStep, BuildStep, UseStep, RetireStep, ReadStep;
    match e
    case Start(t, op) => StartTraced(s, t, op, s');
    case PumpExit(a) => OutsideTraced(s, a, s'.atts[a]);
    case UserCancel(a) => OutsideTraced(s, a, s'.atts[a]);
    case Move(t, c) =>
      assert ThreadOk(s, t, s.threads[t]);
      MoveEvolves(s, t, c, s');
      match s.threads[t] {
        case Life(life, rest) => LifeHands(s, t, life, rest, c, s');
        case Mark(mark, k, g) => MarkHands(s, t, mark, k, g, c, s');
        case Build(build, k, g, a) => BuildHands(s, t, build, k, g, a, c, s');
        case Using(use, a) => UseHands(s, t, use, a, c, s');
        case Retire(phase, a, back) => RetireHands(s, t, phase, a, back, s');
        case Reader(read, a) => ReadHands(s, t, read, a, c, s');
      }
      MoveTraced(s, t, s');
  }

  /** Every mark and every unfinished attachment of a run is the business of a goroutine at work. */
  lemma {:induction false} RunTraced(states: seq<State>, events: seq<Event>, i: nat)
    requires Run(states, events) && i < |states|
    ensures TracedOk(states[i])
  {
    if i > 0 {
      RunTraced(states, events, i - 1);
      RunKeepsInv(states, events, i - 1);
      hide TracedOk, Next, Inv;
      StepTraced(states[i - 1], events[i - 1], states[i]);
    }
  }

  /**
   When no goroutine is at work, whatever failed on the way, every mutex is free, no key is marked, no
   reader slot is taken, and every attachment ever made is registered or torn down, its pump gone.
   */
  lemma NothingLeftBehind(states: seq<State>, events: seq<Event>, i: nat)
    requires Run(states, events) && i < |states| && states[i].threads == map[]
    ensures states[i].lifecycleMu == None && states[i].attachingMu == None && states[i].attaching == {}
    ensures forall a :: a in states[i].atts ==>
              && states[i].atts[a].syncMu == None && states[i].atts[a].readers == 0
              && (Registered(states[i], a)
                  || (states[i].atts[a].stopOnce == Finished && states[i].atts[a].pump == Exited))
  {
    RunHeld(states, events, i);
    RunTraced(states, events, i);
    RunKeepsInv(states, events, i);
    hide Run;
    var s := states[i];
    forall k ensures k !in s.attaching {
      assert !Marker(s, k);
    }
    assert s.attaching == {};
    forall a | a in s.atts
      ensures s.atts[a].syncMu == None && s.atts[a].readers == 0
      ensures Registered(s, a) || (s.atts[a].stopOnce == Finished && s.atts[a].pump == Exited)
    {
      assert SyncHeld(s, a) && PipelineOk(s.atts[a]);
      assert Holders(s.threads, a) == {};
      assert !Builder(s, a) && !Owed(s, a);
      assert !Unfinished(s, a);
    }
  }

  // ---- Nobody waits for ever on somebody who waits ----------------------------------------------------

  /** The event is one of the client's own and makes a difference. */
  ghost predicate Progress(s: State, e: Event) {
    (e.Move? || e.PumpExit?) && Next(s, e).Some? && Next(s, e).value != s
  }

  /** Where a goroutine may have to wait for others. */
  predicate Waits(pc: Pc) {
    match pc
    case Life(life, _) => life == DeLeaving || life.DeLocking?
    case Mark(mark, _, _) => mark == WantMark || mark.WantStale? || mark == Ending
    case Build(build, _, _, _) => build == WantRegister
    case Using(use, _) => use == WantSync
    case Retire(phase, _, _) => phase == WaitReaders || phase == WaitPump
    case Reader(_, _) => false
  }

  lemma {:induction false} FreshName(m: set<Tid>) returns (r: Tid)
    ensures forall t :: t in m ==> t < r
    decreases |m|
  {
    if m == {} {
      r := 0;
    } else {
      var t := Someone(m);
      r := FreshName(m - {t});
      assert forall u :: u in m ==> u == t || u in m - {t};
      r := if r > t then r else t + 1;
    }
  }

  lemma Differs(s: State, t: Tid, s': State)
    requires t in s.threads && (t in s'.threads ==> s'.threads[t] != s.threads[t])
    ensures s' != s
  {
  }

  lemma LifeRuns(s: State, t: Tid) returns (e: Event)
    requires ThreadsOk(s) && t in s.threads && s.threads[t].Life? && !Waits(s.threads[t])
    ensures Progress(s, e)
  {
    var pc := s.threads[t];
    assert ThreadOk(s, t, pc);
    var att := 0;
    if pc.rest != {} {
      att := Someone(pc.rest);
    }
    e := Move(t, Choice(true, att, 0));
    Differs(s, t, Next(s, e).value);
  }

  lemma MarkRuns(s: State, t: Tid) returns (e: Event)
    requires ThreadsOk(s) && t in s.threads && s.threads[t].Mark? && !Waits(s.threads[t])
    ensures Progress(s, e)
  {
    e := Move(t, Choice(false, 0, 0));
    Differs(s, t, Next(s, e).value);
  }

  lemma BuildRuns(s: State, t: Tid) returns (e: Event)
    requires ThreadsOk(s) && t in s.threads && s.threads[t].Build? && !Waits(s.threads[t])
    ensures Progress(s, e)
  {
    assert ThreadOk(s, t, s.threads[t]);
    e := Move(t, Choice(false, 0, 0));
    Differs(s, t, Next(s, e).value);
  }

  lemma UseRuns(s: State, t: Tid) returns (e: Event)
    requires ThreadsOk(s) && t in s.threads && s.threads[t].Using? && !Waits(s.threads[t])
    ensures Progress(s, e)
  {
    assert ThreadOk(s, t, s.threads[t]);
    e := Move(t, Choice(true, 0, 0));
    Differs(s, t, Next(s, e).value);
  }

  lemma RetireRuns(s: State, t: Tid) returns (e: Event)
    requires ThreadsOk(s) && t in s.threads && s.threads[t].Retire? && !Waits(s.threads[t])
    ensures Progress(s, e)
  {
    assert ThreadOk(s, t, s.threads[t]);
    e := Move(t, Choice(true, 0, 0));
    Differs(s, t, Next(s, e).value);
  }

  /** A reader takes no lock: it goes on whatever the others do. */
  lemma ReadRuns(s: State, t: Tid) returns (e: Event)
    requires ThreadsOk(s) && t in s.threads && s.threads[t].Reader?
    ensures Progress(s, e)
  {
    assert ThreadOk(s, t, s.threads[t]);
    var r := FreshName(s.threads.Keys);
    assert r !in s.threads;
    e := Move(t, Choice(true, 0, r));
    Differs(s, t, Next(s, e).value);
  }

  lemma Runs(s: State, t: Tid) returns (e: Event)
    requires ThreadsOk(s) && t in s.threads && !Waits(s.threads[t])
    ensures Progress(s, e)
  {
    hide ThreadsOk, Progress;
    match s.threads[t]
    case Life(_, _) => e := LifeRuns(s, t);
    case Mark(_, _, _) => e := MarkRuns(s, t);
    case Build(_, _, _, _) => e := BuildRuns(s, t);
    case Using(_, _) => e := UseRuns(s, t);
    case Retire(_, _, _) => e := RetireRuns(s, t);
    case Reader(_, _) => e := ReadRuns(s, t);
  }

  /** Whoever wants `attachingMu` gets it, or its holder goes on: no one waits while holding it. */
  lemma AttachingRuns(s: State, t: Tid) returns (e: Event)
    requires ThreadsOk(s) && HeldOk(s) && t in s.threads
    requires || (s.threads[t].Life? && s.threads[t].life == DeLeaving)
             || (s.threads[t].Mark? && (s.threads[t].mark == WantMark || s.threads[t].mark == Ending))
             || (s.threads[t].Build? && s.threads[t].build == WantRegister)
    ensures Progress(s, e)
  {
    if s.attachingMu.Some? {
      hide Progress;
      e := Runs(s, s.attachingMu.value);
    } else {
      assert ThreadOk(s, t, s.threads[t]);
      e := Move(t, Choice(true, 0, 0));
      Differs(s, t, Next(s, e).value);
    }
  }

  /** A teardown goes on, or what it waits for does: a reader, an Attach that holds a reader slot, or the pump. */
  lemma TeardownRuns(s: State, t: Tid) returns (e: Event)
    requires ThreadsOk(s) && HeldOk(s) && CountsOk(s) && t in s.threads && s.threads[t].Retire?
    ensures Progress(s, e)
  {
    var pc := s.threads[t];
    assert ThreadOk(s, t, pc);
    var att := s.atts[pc.a];
    if pc.phase == WaitReaders && att.readers != 0 {
      var r := SlotHolder(s, pc.a);
      if s.threads[r].Build? && s.threads[r].build == WantRegister {
        hide Progress;
        e := AttachingRuns(s, r);
      } else {
        hide Progress;
        e := Runs(s, r);
      }
    } else if pc.phase == WaitPump && att.pump != Exited {
      e := PumpExit(pc.a);
    } else {
      e := Move(t, Choice(true, 0, 0));
      Differs(s, t, Next(s, e).value);
    }
  }

  lemma SlotHolder(s: State, a: AttId) returns (r: Tid)
    requires CountsOk(s) && a in s.atts && s.atts[a].readers != 0
    ensures r in s.threads && SlotOf(s.threads[r]) == Some(a)
  {
    var m := Holders(s.threads, a);
    assert |m| != 0;
    r := Someone(m);
  }

  lemma Someone(m: set<Tid>) returns (r: Tid)
    requires m != {}
    ensures r in m
  {
    assert (forall x :: x !in m) ==> m == {};
    r :| r in m;
  }

  /** Whoever wants a `syncMu` gets it, or its holder goes on. */
  lemma SyncRuns(s: State, t: Tid, a: AttId) returns (e: Event)
    requires ThreadsOk(s) && HeldOk(s) && CountsOk(s) && t in s.threads && a in s.atts
    requires || (s.threads[t].Life? && s.threads[t].life == DeLocking(a))
             || (s.threads[t].Mark? && s.threads[t].mark == WantStale(a))
             || s.threads[t] == Using(WantSync, a)
    ensures Progress(s, e)
  {
    if s.atts[a].syncMu.Some? {
      var u := s.atts[a].syncMu.value;
      assert SyncHeld(s, a);
      hide Progress;
      if s.threads[u].Retire? {
        e := TeardownRuns(s, u);
      } else {
        e := Runs(s, u);
      }
    } else {
      e := Move(t, Choice(true, 0, 0));
      Differs(s, t, Next(s, e).value);
    }
  }

  lemma WaiterRuns(s: State, t: Tid) returns (e: Event)
    requires ThreadsOk(s) && HeldOk(s) && CountsOk(s) && t in s.threads && Waits(s.threads[t])
    ensures Progress(s, e)
  {
    var pc := s.threads[t];
    assert ThreadOk(s, t, pc);
    hide Progress, HeldOk, CountsOk, ThreadsOk;
    match pc
    case Life(life, rest) =>
      if life.DeLocking? { e := SyncRuns(s, t, life.a); } else { e := AttachingRuns(s, t); }
    case Mark(mark, k, g) =>
      if mark.WantStale? { e := SyncRuns(s, t, mark.a); } else { e := AttachingRuns(s, t); }
    case Build(build, k, g, a) => e := AttachingRuns(s, t);
    case Using(use, a) => e := SyncRuns(s, t, a);
    case Retire(phase, a, back) => e := TeardownRuns(s, t);
  }

  /**
   No deadlock: in every state of every run in which some goroutine is at work, one of them, or a
   pump that was asked to stop, can take a step that changes the state.
   */
  lemma NeverStuck(states: seq<State>, events: seq<Event>, i: nat) returns (e: Event)
    requires Run(states, events) && i < |states| && states[i].threads != map[]
    ensures Progress(states[i], e)
  {
    RunKeepsInv(states, events, i);
    RunHeld(states, events, i);
    hide Run, HeldOk, Progress;
    var s := states[i];
    assert (forall x :: x !in s.threads) ==> s.threads == map[];
    var t :| t in s.threads;
    if Waits(s.threads[t]) {
      e := WaiterRuns(s, t);
    } else {
      e := Runs(s, t);
    }
  }

  // ---- The operations get done ------------------------------------------------------------------------

  /** The events can happen one after the other, from the one state to the other. */
  ghost predicate Leads(s: State, events: seq<Event>, s': State)
    decreases |events|
  {
    if events == [] then s == s'
    else Next(s, events[0]).Some? && Leads(Next(s, events[0]).value, events[1..], s')
  }

  /** Steps of these goroutines only, and exits of pumps. */
  ghost predicate By(ts: set<Tid>, events: seq<Event>) {
    forall e :: e in events ==> e.PumpExit? || (e.Move? && e.t in ts)
  }

  /** The whole of an operation: its start, then steps of these goroutines and exits of pumps. */
  ghost predicate Whole(t: Tid, op: Op, ts: set<Tid>, events: seq<Event>) {
    events != [] && events[0] == Start(t, op) && By(ts, events[1..])
  }

  lemma WholeAnd(t: Tid, op: Op, ts: set<Tid>, a: seq<Event>, b: seq<Event>)
    requires Whole(t, op, ts, a) && By(ts, b)
    ensures Whole(t, op, ts, a + b)
  {
    assert (a + b)[1..] == a[1..] + b;
  }

  lemma One(s: State, e: Event, s': State)
    requires Next(s, e) == Some(s')
    ensures Leads(s, [e], s')
  {
    assert [e][1..] == [];
  }

  lemma {:induction false} Then(s: State, a: seq<Event>, s1: State, b: seq<Event>, s2: State)
    requires Leads(s, a, s1) && Leads(s1, b, s2)
    ensures Leads(s, a + b, s2)
    decreases |a|
  {
    hide Next;
    if a == [] {
      assert a + b == b;
    } else {
      assert (a + b)[0] == a[0] && (a + b)[1..] == a[1..] + b;
      Then(Next(s, a[0]).value, a[1..], s1, b, s2);
    }
  }

  lemma Two(s: State, e: Event, s1: State, f: Event, s2: State)
    requires Next(s, e) == Some(s1) && Next(s1, f) == Some(s2)
    ensures Leads(s, [e, f], s2)
  {
    hide Next;
    One(s, e, s1);
    One(s1, f, s2);
    Then(s, [e], s1, [f], s2);
    assert [e] + [f] == [e, f];
  }

  lemma Four(s: State, e: Event, s1: State, f: Event, s2: State, g: Event, s3: State, h: Event, s4: State)
    requires Next(s, e) == Some(s1) && Next(s1, f) == Some(s2) && Next(s2, g) == Some(s3) && Next(s3, h) == Some(s4)
    ensures Leads(s, [e, f, g, h], s4)
  {
    hide Next;
    Two(s, e, s1, f, s2);
    Two(s2, g, s3, h, s4);
    Then(s, [e, f], s2, [g, h], s4);
    assert [e, f] + [g, h] == [e, f, g, h];
  }

  /** Activate on an idle client: activated, and one generation on. */
  lemma ActivateSucceeds(s: State, t: Tid) returns (events: seq<Event>)
    requires s.status == Deactivated && s.lifecycleMu == None && t !in s.threads
    ensures Leads(s, events, s.(status := Activated, generation := s.generation + 1))
    ensures Whole(t, Activate, {t}, events)
  {
    var e := Move(t, Choice(true, 0, 0));
    var s1 := Go(s, t, Life(ActHeld, {})).(lifecycleMu := Some(t));
    var s2 := Go(s1, t, Life(ActCalling, {}));
    var s3 := Go(s2, t, Life(ActBumped, {})).(generation := s.generation + 1);
    var s4 := s.(status := Activated, generation := s.generation + 1);
    assert (s3.threads - {t}) == s.threads;
    events := [Start(t, Activate), e, e, e];
    Four(s, Start(t, Activate), s1, e, s2, e, s3, e, s4);
  }

  /** Attach gets the key to itself. */
  lemma AttachMarks(s: State, t: Tid, k: Key) returns (events: seq<Event>)
    requires s.status == Activated && s.attachingMu == None && t !in s.threads && k !in s.attaching && k !in s.registry
    ensures Leads(s, events, Go(s, t, Mark(Calling, k, s.generation)).(attaching := s.attaching + {k}))
    ensures Whole(t, Attach(k), {t}, events)
  {
    var e, g := Move(t, Choice(true, 0, 0)), s.generation;
    var s1 := Go(s, t, Mark(Entering, k, 0));
    var s2 := Go(s1, t, Mark(WantMark, k, g));
    var s3 := Go(s2, t, Mark(Looking, k, g)).(attachingMu := Some(t));
    var s4 := Go(s3, t, Mark(Marked(None), k, g));
    var s5 := Go(s4, t, Mark(Calling, k, g)).(attaching := s.attaching + {k}, attachingMu := None);
    assert s5.threads == s.threads[t := Mark(Calling, k, g)];
    assert Next(s1, e) == Some(s2) && Next(s2, e) == Some(s3) && Next(s3, e) == Some(s4) && Next(s4, e) == Some(s5);
    Four(s, Start(t, Attach(k)), s1, e, s2, e, s3, e, s4);
    One(s4, e, s5);
    Then(s, [Start(t, Attach(k)), e, e, e], s4, [e], s5);
    events := [Start(t, Attach(k)), e, e, e] + [e];
  }

  /** A new attachment, published and with one reader slot taken. */
  function NewAttachment(k: Key, g: int): (att: Attachment) {
    Attachment(k, g, true, None, 1, false, Unused, Draining)
  }

  /** Attach makes the attachment and registers it. */
  lemma AttachRegisters(s: State, t: Tid, k: Key, a: AttId) returns (events: seq<Event>)
    requires s.status == Activated && s.attachingMu == None && a !in s.atts
    requires t in s.threads && s.threads[t] == Mark(Calling, k, s.generation)
    ensures Leads(s, events, Go(SetAtt(s, a, NewAttachment(k, s.generation)), t, Build(Handshaking, k, s.generation, a))
                             .(registry := s.registry[k := a]))
    ensures By({t}, events)
  {
    var e, g := Move(t, Choice(true, a, 0)), s.generation;
    var att := Attachment(k, g, false, None, 0, false, Unused, Draining);
    var s1 := Go(SetAtt(s, a, att), t, Build(Applying, k, g, a));
    var s2 := Go(s1, t, Build(Ready, k, g, a));
    var s3 := Go(SetAtt(s2, a, att.(readers := 1)), t, Build(WantRegister, k, g, a));
    var s4 := Go(s3, t, Build(Checking, k, g, a)).(attachingMu := Some(t));
    var s5 := Go(s4, t, Build(Registering, k, g, a));
    var s6 := Go(SetAtt(s5, a, NewAttachment(k, g)), t, Build(Handshaking, k, g, a))
              .(registry := s.registry[k := a], attachingMu := None);
    assert s6.threads == s.threads[t := Build(Handshaking, k, g, a)] && s6.atts == s.atts[a := NewAttachment(k, g)];
    assert Next(s, e) == Some(s1) && Next(s1, e) == Some(s2) && Next(s2, e) == Some(s3) && Next(s3, e) == Some(s4);
    assert Next(s4, e) == Some(s5) && Next(s5, e) == Some(s6);
    Four(s, e, s1, e, s2, e, s3, e, s4);
    Two(s4, e, s5, e, s6);
    Then(s, [e, e, e, e], s4, [e, e], s6);
    events := [e, e, e, e] + [e, e];
  }

  /** Attach shakes hands, hands its slot to the first reader, and ends. */
  lemma AttachEnds(s: State, t: Tid, k: Key, a: AttId, r: Tid) returns (events: seq<Event>)
    requires s.attachingMu == None && a in s.atts && s.atts[a].readers == 1 && r !in s.threads
    requires t in s.threads && s.threads[t] == Build(Handshaking, k, s.generation, a)
    ensures Leads(s, events, s.(threads := s.threads[r := Reader(Receiving, a)] - {t}, attaching := s.attaching - {k}))
    ensures By({t}, events)
  {
    var e, g := Move(t, Choice(true, a, r)), s.generation;
    var s1 := Go(Go(AddReaders(s, a, 1), r, Reader(Receiving, a)), t, Build(Handshook, k, g, a));
    var s2 := Go(AddReaders(s1, a, -1), t, Mark(Ending, k, g));
    var s3 := s.(threads := s.threads[r := Reader(Receiving, a)] - {t}, attaching := s.attaching - {k});
    assert s2.atts == s.atts && s2.threads - {t} == s3.threads;
    assert Next(s, e) == Some(s1) && Next(s1, e) == Some(s2) && Next(s2, e) == Some(s3);
    Two(s, e, s1, e, s2);
    One(s2, e, s3);
    Then(s, [e, e], s2, [e], s3);
    events := [e, e] + [e];
  }

  /** What Attach leaves behind: the attachment registered, live and of this generation, with a reader at its stream. */
  function Attached(s: State, k: Key, a: AttId, r: Tid): (s': State) {
    s.(registry := s.registry[k := a], atts := s.atts[a := NewAttachment(k, s.generation)],
       threads := s.threads[r := Reader(Receiving, a)])
  }

  /** Attach of a key that is neither attached nor being attached, on an activated client. */
  lemma AttachSucceeds(s: State, t: Tid, k: Key, a: AttId, r: Tid) returns (events: seq<Event>)
    requires s.status == Activated && s.attachingMu == None && k !in s.attaching && k !in s.registry
    requires t !in s.threads && r !in s.threads && t != r && a !in s.atts
    ensures Leads(s, events, Attached(s, k, a, r))
    ensures Whole(t, Attach(k), {t}, events)
  {
    var first := AttachMarks(s, t, k);
    var s1 := Go(s, t, Mark(Calling, k, s.generation)).(attaching := s.attaching + {k});
    var rest := AttachFinishes(s1, t, k, a, r);
    var s3 := Attached(s1, k, a, r).(threads := s1.threads[r := Reader(Receiving, a)] - {t},
                                     attaching := s1.attaching - {k});
    assert s3.threads == s.threads[r := Reader(Receiving, a)] && s3.attaching == s.attaching;
    hide Leads;
    Then(s, first, s1, rest, s3);
    WholeAnd(t, Attach(k), {t}, first, rest);
    events := first + rest;
  }

  lemma AttachFinishes(s: State, t: Tid, k: Key, a: AttId, r: Tid) returns (events: seq<Event>)
    requires s.status == Activated && s.attachingMu == None && a !in s.atts && r !in s.threads && t != r
    requires t in s.threads && s.threads[t] == Mark(Calling, k, s.generation)
    ensures Leads(s, events, Attached(s, k, a, r).(threads := s.threads[r := Reader(Receiving, a)] - {t},
                                                   attaching := s.attaching - {k}))
    ensures By({t}, events)
  {
    hide Leads;
    var middle := AttachRegisters(s, t, k, a);
    var s2 := Go(SetAtt(s, a, NewAttachment(k, s.generation)), t, Build(Handshaking, k, s.generation, a))
              .(registry := s.registry[k := a]);
    var last := AttachEnds(s2, t, k, a, r);
    var s3 := Attached(s, k, a, r).(threads := s.threads[r := Reader(Receiving, a)] - {t},
                                    attaching := s.attaching - {k});
    assert s2.threads[r := Reader(Receiving, a)] - {t} == s3.threads;
    Then(s, middle, s2, last, s3);
    events := middle + last;
  }

  /** Sync, Detach and Remove get hold of a registered attachment whose lock is free. */
  lemma UseGoesLive(s: State, t: Tid, a: AttId) returns (events: seq<Event>)
    requires s.status == Activated && Registered(s, a) && s.atts[a].published && Free(s, a) && t !in s.threads
    ensures Leads(s, events, Go(Lock(s, a, t), t, Using(Live, a)))
    ensures Whole(t, Use(a), {t}, events)
  {
    var e := Move(t, Choice(true, 0, 0));
    var s1 := Go(s, t, Using(WantSync, a));
    var s2 := Go(Lock(s1, a, t), t, Using(Held, a));
    var s3 := Go(s2, t, Using(SeenActive, a));
    var s4 := Go(s3, t, Using(Live, a));
    assert s4.threads == s.threads[t := Using(Live, a)];
    assert Next(s1, e) == Some(s2) && Next(s2, e) == Some(s3) && Next(s3, e) == Some(s4);
    events := [Start(t, Use(a)), e, e, e];
    Four(s, Start(t, Use(a)), s1, e, s2, e, s3, e, s4);
  }

  /** A Sync leaves everything as it found it. */
  lemma SyncSucceeds(s: State, t: Tid, a: AttId) returns (events: seq<Event>)
    requires s.status == Activated && Registered(s, a) && s.atts[a].published && Free(s, a) && t !in s.threads
    ensures Leads(s, events, s)
    ensures Whole(t, Use(a), {t}, events)
  {
    var first := UseGoesLive(s, t, a);
    var s1, e := Go(Lock(s, a, t), t, Using(Live, a)), Move(t, Choice(true, 0, 0));
    assert Unlock(s1, a).atts == s.atts && s1.threads - {t} == s.threads;
    One(s1, e, s);
    hide Leads;
    Then(s, first, s1, [e], s);
    WholeAnd(t, Use(a), {t}, first, [e]);
    events := first + [e];
  }

  function TornDown(att: Attachment): (r: Attachment) {
    att.(readers := 0, stopOnce := Finished, cancelled := true, pump := Exited)
  }

  /** The goroutines without those that hold a reader slot of one of these attachments. */
  function Without(threads: map<Tid, Pc>, done: set<AttId>): (r: map<Tid, Pc>) {
    map t | t in threads && (SlotOf(threads[t]).None? || SlotOf(threads[t]).value !in done) :: threads[t]
  }

  /** The attachment torn down and its readers gone. */
  function Downed(s: State, a: AttId): (s': State)
    requires a in s.atts
  {
    s.(atts := s.atts[a := TornDown(s.atts[a])], threads := Without(s.threads, {a}))
  }

  /** Nobody has begun to tear the pipeline down, and all its slots are those of readers at its streams. */
  ghost predicate Listening(s: State, a: AttId) {
    && a in s.atts && s.atts[a].stopOnce == Unused && s.atts[a].readers == |Holders(s.threads, a)|
    && forall r :: r in Holders(s.threads, a) ==> s.threads[r] == Reader(Receiving, a)
  }

  /** A reader of a cancelled stream gives its slot back. */
  lemma ReaderLeaves(s: State, r: Tid, a: AttId)
    requires r in s.threads && s.threads[r] == Reader(Receiving, a) && a in s.atts && s.atts[a].cancelled
    ensures Leads(s, [Move(r, Choice(false, 0, 0))], End(AddReaders(s, a, -1), r))
  {
    One(s, Move(r, Choice(false, 0, 0)), End(AddReaders(s, a, -1), r));
  }

  /** So do all of them. */
  lemma {:induction false} ReadersLeave(s: State, a: AttId, rs: set<Tid>) returns (events: seq<Event>)
    requires a in s.atts && s.atts[a].cancelled && s.atts[a].readers == |rs|
    requires forall r :: r in rs ==> r in s.threads && s.threads[r] == Reader(Receiving, a)
    ensures Leads(s, events, s.(threads := s.threads - rs, atts := s.atts[a := s.atts[a].(readers := 0)]))
    ensures By(rs, events)
    decreases |rs|
  {
    if rs == {} {
      events := [];
      assert s.threads - rs == s.threads && s.atts[a := s.atts[a].(readers := 0)] == s.atts;
    } else {
      var r := Someone(rs);
      ReaderLeaves(s, r, a);
      var s1 := End(AddReaders(s, a, -1), r);
      var first := [Move(r, Choice(false, 0, 0))];
      hide Leads;
      var more := ReadersLeave(s1, a, rs - {r});
      var s2 := s.(threads := s.threads - rs, atts := s.atts[a := s.atts[a].(readers := 0)]);
      assert s1.threads - (rs - {r}) == s2.threads && s1.atts[a := s1.atts[a].(readers := 0)] == s2.atts;
      Then(s, first, s1, more, s2);
      events := first + more;
    }
  }

  /** A teardown cancels the streams, and when the readers are gone stops the pump. */
  lemma TeardownEnds(s: State, t: Tid, a: AttId, back: Return) returns (events: seq<Event>)
    requires t in s.threads && s.threads[t] == Retire(Begin, a, back) && Listening(s, a)
    ensures Leads(s, events, Go(Downed(s, a), t, Retire(Over, a, back)))
    ensures By({t} + Holders(s.threads, a), events)
  {
    var e, att, rs := Move(t, Choice(true, 0, 0)), s.atts[a], Holders(s.threads, a);
    var running := att.(stopOnce := Running, cancelled := true);
    var s1 := Go(SetAtt(s, a, running), t, Retire(WaitReaders, a, back));
    One(s, e, s1);
    var leaving := ReadersLeave(s1, a, rs);
    var s2 := s1.(threads := s1.threads - rs, atts := s1.atts[a := running.(readers := 0)]);
    var last := PumpStops(s2, t, a, back);
    var s3 := Go(SetAtt(s2, a, TornDown(s2.atts[a])), t, Retire(Over, a, back));
    var s4 := Go(Downed(s, a), t, Retire(Over, a, back));
    assert t !in rs && forall x :: x in s.threads && x in rs <==> x in s.threads && SlotOf(s.threads[x]) == Some(a);
    hide Leads, Next, SlotOf;
    assert s3.threads == s4.threads && s3.atts == s4.atts;
    Then(s, [e], s1, leaving, s2);
    Then(s, [e] + leaving, s2, last, s4);
    events := [e] + leaving + last;
  }

  lemma PumpStops(s: State, t: Tid, a: AttId, back: Return) returns (events: seq<Event>)
    requires t in s.threads && s.threads[t] == Retire(WaitReaders, a, back)
    requires a in s.atts && s.atts[a].stopOnce == Running && s.atts[a].cancelled && s.atts[a].readers == 0
    ensures Leads(s, events, Go(SetAtt(s, a, TornDown(s.atts[a])), t, Retire(Over, a, back)))
    ensures By({t}, events)
  {
    var e, att := Move(t, Choice(true, 0, 0)), s.atts[a];
    var s2 := Go(SetAtt(s, a, att.(pump := StopAsked)), t, Retire(WaitPump, a, back));
    var s3 := SetAtt(s2, a, att.(pump := Exited));
    var s4 := Go(SetAtt(s3, a, TornDown(att)), t, Retire(Over, a, back));
    assert s4.threads == s.threads[t := Retire(Over, a, back)] && s4.atts == s.atts[a := TornDown(att)];
    assert Next(s, e) == Some(s2) && Next(s2, PumpExit(a)) == Some(s3) && Next(s3, e) == Some(s4);
    Two(s, e, s2, PumpExit(a), s3);
    One(s3, e, s4);
    Then(s, [e, PumpExit(a)], s3, [e], s4);
    events := [e, PumpExit(a)] + [e];
  }

  /** Where Attach and Deactivate go on after a teardown. */
  function Resumed(back: Return): (pc: Pc)
    requires back.ToAttach? || back.ToWalk?
  {
    if back.ToAttach? then Mark(Calling, back.k, back.g) else Life(DeWalking, back.rest)
  }

  /** A teardown from the taking of `syncMu` to its release. */
  lemma LockedTeardown(s: State, t: Tid, a: AttId, back: Return, e: Event) returns (events: seq<Event>)
    requires t in s.threads && Free(s, a) && Listening(s, a) && SlotOf(s.threads[t]).None?
    requires (back.ToAttach? || back.ToWalk?) && e == Move(t, Choice(true, a, 0))
    requires Next(s, e) == Some(Go(Lock(s, a, t), t, Retire(Begin, a, back)))
    ensures Leads(s, events, Go(Downed(s, a), t, Resumed(back)))
    ensures By({t} + Holders(s.threads, a), events)
  {
    var s1 := Go(Lock(s, a, t), t, Retire(Begin, a, back));
    assert Holders(s1.threads, a) == Holders(s.threads, a);
    One(s, e, s1);
    var down := TeardownEnds(s1, t, a, back);
    var s2 := Go(Downed(s1, a), t, Retire(Over, a, back));
    var s3 := Go(Downed(s, a), t, Resumed(back));
    assert Unlock(s2, a).atts == s3.atts && s2.threads[t := Resumed(back)] == s3.threads;
    One(s2, e, s3);
    hide Leads, Next;
    Then(s, [e], s1, down, s2);
    Then(s, [e] + down, s2, [e], s3);
    events := [e] + down + [e];
  }

  /** A reader that loses its stream reconnects: a new one takes over and the slots are as many as before. */
  lemma ReconnectSucceeds(s: State, r: Tid, a: AttId, r': Tid) returns (events: seq<Event>)
    requires r in s.threads && s.threads[r] == Reader(Receiving, a) && a in s.atts && !s.atts[a].cancelled
    requires s.status == Activated && r' !in s.threads
    ensures Leads(s, events, s.(threads := s.threads[r' := Reader(Receiving, a)] - {r}))
    ensures By({r}, events)
  {
    var e, lost := Move(r, Choice(true, 0, r')), Move(r, Choice(false, 0, 0));
    var s1 := Go(s, r, Reader(Lost, a));
    var s2 := Go(s1, r, Reader(Reconnecting, a));
    var s3 := Go(Go(AddReaders(s2, a, 1), r', Reader(Receiving, a)), r, Reader(Leaving, a));
    var s4 := s.(threads := s.threads[r' := Reader(Receiving, a)] - {r});
    assert AddReaders(s3, a, -1).atts == s.atts && s3.threads - {r} == s4.threads;
    assert Next(s, lost) == Some(s1) && Next(s1, e) == Some(s2) && Next(s2, e) == Some(s3) && Next(s3, e) == Some(s4);
    Four(s, lost, s1, e, s2, e, s3, e, s4);
    events := [lost, e, e, e];
  }

  /** Detach or Remove of a registered attachment: out of the registry and torn down, its readers gone. */
  lemma DetachSucceeds(s: State, t: Tid, a: AttId) returns (events: seq<Event>)
    requires s.status == Activated && Registered(s, a) && s.atts[a].published && Free(s, a) && t !in s.threads
    requires Listening(s, a)
    ensures Leads(s, events, Downed(s, a).(registry := s.registry - {s.atts[a].key}))
    ensures Whole(t, Use(a), {t} + Holders(s.threads, a), events)
  {
    var first := UseGoesLive(s, t, a);
    var s1 := Go(Lock(s, a, t), t, Using(Live, a));
    assert Holders(s1.threads, a) == Holders(s.threads, a);
    var rest := LiveDetaches(s1, t, a);
    var s2 := Downed(s, a).(registry := s.registry - {s.atts[a].key});
    assert Unlock(Downed(s1, a), a).atts == s2.atts && Without(s1.threads, {a}) - {t} == s2.threads;
    hide Leads;
    Then(s, first, s1, rest, s2);
    WholeAnd(t, Use(a), {t} + Holders(s.threads, a), first, rest);
    events := first + rest;
  }

  lemma LiveDetaches(s: State, t: Tid, a: AttId) returns (events: seq<Event>)
    requires t in s.threads && s.threads[t] == Using(Live, a) && Listening(s, a)
    ensures Leads(s, events, End(Unlock(Downed(s, a), a), t).(registry := s.registry - {s.atts[a].key}))
    ensures By({t} + Holders(s.threads, a), events)
  {
    var e := Move(t, Choice(false, 0, 0));
    var s1 := Go(s, t, Retire(Begin, a, ToCaller)).(registry := s.registry - {s.atts[a].key});
    assert Holders(s1.threads, a) == Holders(s.threads, a);
    One(s, e, s1);
    var down := TeardownEnds(s1, t, a, ToCaller);
    var s2 := Go(Downed(s1, a), t, Retire(Over, a, ToCaller));
    var s3 := End(Unlock(Downed(s, a), a), t).(registry := s.registry - {s.atts[a].key});
    assert s2.threads - {t} == s3.threads;
    One(s2, e, s3);
    hide Leads, Next;
    Then(s, [e], s1, down, s2);
    Then(s, [e] + down, s2, [e], s3);
    events := [e] + down + [e];
  }

  /** Attach of a key whose attachment is stale: the old one is torn down and the new one takes its place. */
  lemma AttachReplaces(s: State, t: Tid, k: Key, a: AttId, r: Tid) returns (events: seq<Event>)
    requires s.status == Activated && s.attachingMu == None && k !in s.attaching && k in s.registry
    requires t !in s.threads && r !in s.threads && t != r && a !in s.atts
    requires Free(s, s.registry[k]) && Listening(s, s.registry[k])
    ensures Leads(s, events, Attached(Downed(s, s.registry[k]), k, a, r))
    ensures Whole(t, Attach(k), {t} + Holders(s.threads, s.registry[k]), events)
  {
    var b := s.registry[k];
    var first := StaleMakesRoom(s, t, k);
    var s1 := Go(Downed(s, b), t, Mark(Calling, k, s.generation))
              .(registry := s.registry - {k}, attaching := s.attaching + {k});
    hide Leads;
    var rest := AttachFinishes(s1, t, k, a, r);
    var s3 := Attached(s1, k, a, r).(threads := s1.threads[r := Reader(Receiving, a)] - {t},
                                     attaching := s1.attaching - {k});
    var s4 := Attached(Downed(s, b), k, a, r);
    assert s3.threads == s4.threads && s3.attaching == s.attaching && s3.registry == s4.registry;
    Then(s, first, s1, rest, s4);
    WholeAnd(t, Attach(k), {t} + Holders(s.threads, b), first, rest);
    events := first + rest;
  }

  lemma StaleMakesRoom(s: State, t: Tid, k: Key) returns (events: seq<Event>)
    requires s.status == Activated && s.attachingMu == None && k !in s.attaching && k in s.registry && t !in s.threads
    requires Free(s, s.registry[k]) && Listening(s, s.registry[k])
    ensures Leads(s, events, Go(Downed(s, s.registry[k]), t, Mark(Calling, k, s.generation))
                             .(registry := s.registry - {k}, attaching := s.attaching + {k}))
    ensures Whole(t, Attach(k), {t} + Holders(s.threads, s.registry[k]), events)
  {
    var b, g := s.registry[k], s.generation;
    var first := StaleQueues(s, t, k);
    var s1 := Go(s, t, Mark(WantStale(b), k, g)).(registry := s.registry - {k}, attaching := s.attaching + {k});
    assert Holders(s1.threads, b) == Holders(s.threads, b);
    var rest := LockedTeardown(s1, t, b, ToAttach(k, g), Move(t, Choice(true, b, 0)));
    var s2 := Go(Downed(s, b), t, Mark(Calling, k, g)).(registry := s.registry - {k}, attaching := s.attaching + {k});
    assert Go(Downed(s1, b), t, Mark(Calling, k, g)).threads == s2.threads;
    hide Leads;
    Then(s, first, s1, rest, s2);
    WholeAnd(t, Attach(k), {t} + Holders(s.threads, b), first, rest);
    events := first + rest;
  }

  /** Attach takes the stale attachment out of the registry and queues for its lock. */
  lemma StaleQueues(s: State, t: Tid, k: Key) returns (events: seq<Event>)
    requires s.status == Activated && s.attachingMu == None && k !in s.attaching && k in s.registry && t !in s.threads
    ensures Leads(s, events, Go(s, t, Mark(WantStale(s.registry[k]), k, s.generation))
                             .(registry := s.registry - {k}, attaching := s.attaching + {k}))
    ensures Whole(t, Attach(k), {t}, events)
  {
    var b, g, e := s.registry[k], s.generation, Move(t, Choice(false, 0, 0));
    var s1 := Go(s, t, Mark(Entering, k, 0));
    var s2 := Go(s1, t, Mark(WantMark, k, g));
    var s3 := Go(s2, t, Mark(Looking, k, g)).(attachingMu := Some(t));
    var s4 := Go(s3, t, Mark(Dropping(b), k, g));
    var s5 := Go(s4, t, Mark(Marked(Some(b)), k, g)).(registry := s.registry - {k});
    var s6 := Go(s5, t, Mark(WantStale(b), k, g)).(attaching := s.attaching + {k}, attachingMu := None);
    assert s6.threads == s.threads[t := Mark(WantStale(b), k, g)];
    Four(s, Start(t, Attach(k)), s1, e, s2, e, s3, e, s4);
    Two(s4, e, s5, e, s6);
    hide Leads, Next;
    Then(s, [Start(t, Attach(k)), e, e, e], s4, [e, e], s6);
    events := [Start(t, Attach(k)), e, e, e] + [e, e];
  }

  /** The attachments of `done` torn down, all others as they were. */
  ghost predicate TornDownIn(m: map<AttId, Attachment>, m': map<AttId, Attachment>, done: set<AttId>) {
    m'.Keys == m.Keys && forall a :: a in m && a in m' ==> m'[a] == if a in done then TornDown(m[a]) else m[a]
  }

  /** Attachments that nobody holds and only readers use. */
  ghost predicate Idle(s: State, rest: set<AttId>) {
    forall a :: a in rest ==> Free(s, a) && Listening(s, a)
  }

  /** Deactivate takes one attachment of its list, locks it and tears it down. */
  lemma WalkOne(s: State, t: Tid, rest: set<AttId>, a: AttId) returns (events: seq<Event>)
    requires t in s.threads && s.threads[t] == Life(DeWalking, rest) && a in rest && Idle(s, rest)
    ensures a in s.atts
    ensures Leads(s, events, Go(Downed(s, a), t, Life(DeWalking, rest - {a})))
    ensures By({t} + Holders(s.threads, a), events)
  {
    assert Free(s, a) && Listening(s, a);
    var e := Move(t, Choice(true, a, 0));
    var s1 := Go(s, t, Life(DeLocking(a), rest - {a}));
    One(s, e, s1);
    assert Holders(s1.threads, a) == Holders(s.threads, a);
    var down := LockedTeardown(s1, t, a, ToWalk(rest - {a}), e);
    var s2 := Go(Downed(s, a), t, Life(DeWalking, rest - {a}));
    assert Go(Downed(s1, a), t, Life(DeWalking, rest - {a})).threads == s2.threads;
    hide Leads, Next;
    Then(s, [e], s1, down, s2);
    events := [e] + down;
  }

  /** The others are still idle afterwards. */
  lemma StillIdle(s: State, t: Tid, rest: set<AttId>, a: AttId, s1: State)
    requires t in s.threads && s.threads[t].Life? && a in rest && Idle(s, rest)
    requires s1 == Go(Downed(s, a), t, Life(DeWalking, rest - {a}))
    ensures Idle(s1, rest - {a})
  {
    forall b | b in rest - {a} ensures Free(s1, b) && Listening(s1, b) {
      assert Free(s, b) && Listening(s, b) && s1.atts[b] == s.atts[b];
      assert Holders(s1.threads, b) == Holders(s.threads, b);
    }
  }

  /** Deactivate works through its list. */
  lemma {:induction false} WalkAll(s: State, t: Tid, rest: set<AttId>) returns (events: seq<Event>, s': State)
    requires t in s.threads && s.threads[t] == Life(DeWalking, rest) && Idle(s, rest)
    ensures Leads(s, events, s')
    ensures s' == s.(threads := Without(s.threads, rest)[t := Life(DeWalking, {})], atts := s'.atts)
    ensures TornDownIn(s.atts, s'.atts, rest)
    ensures By(s.threads.Keys, events)
    decreases |rest|
  {
    if rest == {} {
      events, s' := [], s;
      assert Without(s.threads, rest)[t := Life(DeWalking, {})] == s.threads;
    } else {
      var a := Someone(rest);
      var first := WalkOne(s, t, rest, a);
      var s1 := Go(Downed(s, a), t, Life(DeWalking, rest - {a}));
      StillIdle(s, t, rest, a, s1);
      hide Leads, Idle;
      var more;
      more, s' := WalkAll(s1, t, rest - {a});
      assert Without(s1.threads, rest - {a})[t := Life(DeWalking, {})]
          == Without(s.threads, rest)[t := Life(DeWalking, {})];
      Then(s, first, s1, more, s');
      events := first + more;
    }
  }

  /** Deactivate drops the attachments of its second list from the registry. */
  lemma {:induction false} DropAll(s: State, t: Tid, rest: set<AttId>) returns (events: seq<Event>, s': State)
    requires t in s.threads && s.threads[t] == Life(DeDropping, rest) && forall a :: a in rest ==> a in s.atts
    ensures Leads(s, events, s') && s' == Go(s, t, Life(DeDropping, {})).(registry := s'.registry)
    ensures forall k :: k in s'.registry ==> k in s.registry && s'.registry[k] == s.registry[k]
    ensures forall a :: a in rest ==> s.atts[a].key !in s'.registry
    ensures By({t}, events)
    decreases |rest|
  {
    if rest == {} {
      events, s' := [], s;
      assert s.threads[t := Life(DeDropping, {})] == s.threads;
    } else {
      var a := Someone(rest);
      var e := Move(t, Choice(true, a, 0));
      var s1 := Go(s, t, Life(DeDropping, rest - {a})).(registry := s.registry - {s.atts[a].key});
      One(s, e, s1);
      hide Leads, Next;
      var more;
      more, s' := DropAll(s1, t, rest - {a});
      assert s1.threads[t := Life(DeDropping, {})] == s.threads[t := Life(DeDropping, {})];
      Then(s, [e], s1, more, s');
      events := [e] + more;
    }
  }

  /** The first part of Deactivate, up to the end of its walk. */
  lemma DeactivateWalks(s: State, t: Tid) returns (events: seq<Event>, s': State)
    requires s.status == Activated && s.lifecycleMu == None && s.attachingMu == None && t !in s.threads
    requires Idle(s, Listing(s))
    ensures Leads(s, events, s')
    ensures s' == s.(status := Deactivating, lifecycleMu := Some(t), atts := s'.atts,
                     threads := Without(s.threads, Listing(s))[t := Life(DeWalking, {})])
    ensures TornDownIn(s.atts, s'.atts, Listing(s))
    ensures Whole(t, Deactivate, s.threads.Keys + {t}, events)
  {
    var e := Move(t, Choice(true, 0, 0));
    var s1 := Go(s, t, Life(DeHeld, {})).(lifecycleMu := Some(t));
    var s2 := Go(s1, t, Life(DeLeaving, {}));
    var s3 := Go(s2, t, Life(DeListing, {})).(status := Deactivating);
    var s4 := Go(s3, t, Life(DeWalking, Listing(s3)));
    assert Listing(s3) == Listing(s);
    Four(s, Start(t, Deactivate), s1, e, s2, e, s3, e, s4);
    forall a | a in Listing(s) ensures Free(s4, a) && Listening(s4, a) {
      assert Free(s, a) && Listening(s, a) && Holders(s4.threads, a) == Holders(s.threads, a);
    }
    hide Leads, Next, Idle;
    var more;
    more, s' := WalkAll(s4, t, Listing(s));
    assert Without(s4.threads, Listing(s))[t := Life(DeWalking, {})]
        == Without(s.threads, Listing(s))[t := Life(DeWalking, {})];
    Then(s, [Start(t, Deactivate), e, e, e], s4, more, s');
    WholeAnd(t, Deactivate, s.threads.Keys + {t}, [Start(t, Deactivate), e, e, e], more);
    events := [Start(t, Deactivate), e, e, e] + more;
  }

  /** The second part, from the call on. */
  lemma DeactivateDrops(s: State, t: Tid) returns (events: seq<Event>, s': State)
    requires t in s.threads && s.threads[t] == Life(DeWalking, {})
    requires forall k :: k in s.registry ==> s.registry[k] in s.atts && s.atts[s.registry[k]].key == k
    ensures Leads(s, events, s')
    ensures s' == End(s, t).(status := Deactivated, lifecycleMu := None, registry := map[])
    ensures By({t}, events)
  {
    var e := Move(t, Choice(true, 0, 0));
    var s1 := Go(s, t, Life(DeCalling, {}));
    var s2 := Go(s1, t, Life(DeDropping, Listing(s1)));
    assert Listing(s1) == Listing(s);
    Two(s, e, s1, e, s2);
    var drops, s3 := DropAll(s2, t, Listing(s));
    forall k | k in s.registry ensures k !in s3.registry {
      assert s.registry[k] in Listing(s);
    }
    s' := End(s, t).(status := Deactivated, lifecycleMu := None, registry := map[]);
    assert forall k :: k in s3.registry ==> k in s2.registry;
    assert s3.registry.Keys == {};
    assert s3.registry == map[] && s3.threads - {t} == s.threads - {t};
    One(s3, e, s');
    hide Leads, Next;
    Then(s, [e, e], s2, drops, s3);
    Then(s, [e, e] + drops, s3, [e], s');
    events := [e, e] + drops + [e];
  }

  /**
   Deactivate of a client at which only readers are at work: deactivated, with an empty registry and
   every attachment that was registered torn down, its readers and its pump gone.
   */
  lemma DeactivateSucceeds(states: seq<State>, events: seq<Event>, i: nat, t: Tid) returns (more: seq<Event>, s': State)
    requires Run(states, events) && i < |states| && states[i].status == Activated && t !in states[i].threads
    requires forall r :: r in states[i].threads ==>
               states[i].threads[r].Reader? && states[i].threads[r].read == Receiving
    ensures Leads(states[i], more, s')
    ensures s' == states[i].(status := Deactivated, registry := map[], atts := s'.atts,
                             threads := Without(states[i].threads, Listing(states[i])))
    ensures TornDownIn(states[i].atts, s'.atts, Listing(states[i]))
    ensures Whole(t, Deactivate, states[i].threads.Keys + {t}, more)
  {
    RunKeepsInv(states, events, i);
    RunHeld(states, events, i);
    hide Run, ThreadsOk, MarksUnique, DebtsOk, Leads, Next;
    var s := states[i];
    forall a | a in Listing(s) ensures Free(s, a) && Listening(s, a) {
      assert SyncHeld(s, a);
    }
    var first, s1 := DeactivateWalks(s, t);
    forall k | k in s1.registry ensures s1.registry[k] in s1.atts && s1.atts[s1.registry[k]].key == k {
      var a := s.registry[k];
      assert a in s.atts && s.atts[a].key == k && s1.registry[k] == a && a in s1.atts.Keys;
      assert s1.atts[a] == if a in Listing(s) then TornDown(s.atts[a]) else s.atts[a];
      assert s1.atts[a].key == k;
    }
    var rest, s2 := DeactivateDrops(s1, t);
    assert s1.threads - {t} == Without(s.threads, Listing(s));
    Then(s, first, s1, rest, s2);
    WholeAnd(t, Deactivate, s.threads.Keys + {t}, first, rest);
    more, s' := first + rest, s2;
  }
}
