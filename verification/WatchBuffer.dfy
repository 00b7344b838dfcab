/**
 The buffer between the producers of watch events and the goroutine that delivers them
 (client/watch_buffer.go): an unbounded queue under a mutex, and a signal channel of
 capacity one to wake the waiting consumer.

 A critical section is one step. A producer leaves the mutex before it deposits its signal,
 and the consumer leaves it before it waits, so anything can happen in between.
 */
module WatchBuffer {
  /** What the one consumer does: it is outside `pop`, about to look, or waiting for the signal. */
  datatype Consumer = Away | Looking | Parked

  /**
   `depositing` are the producers between their critical section and their signal; `accepted`
   is what was pushed before the buffer was closed and `delivered` what `pop` has returned, in
   order; `ended` says that a `pop` found the buffer closed and drained.
   */
  datatype State = State(
    items: seq<int>, closed: bool, signal: bool, depositing: set<int>, consumer: Consumer,
    accepted: seq<int>, delivered: seq<int>, ended: bool)

  datatype Step =
    | Push(producer: int, item: int)
    | Close(producer: int)
    | Deposit(producer: int)
    | Pop
    | Look
    | Wake
    | Cancel

  predicate Enabled(s: State, e: Step) {
    match e
    case Push(t, _) => t !in s.depositing
    case Close(t) => t !in s.depositing
    case Deposit(t) => t in s.depositing
    case Pop => s.consumer == Away
    case Look => s.consumer == Looking
    case Wake => s.consumer == Parked && s.signal
    case Cancel => s.consumer == Parked
  }

  function Next(s: State, e: Step): (r: State)
    requires Enabled(s, e)
  {
    match e
    case Push(t, x) =>
      if s.closed then s
      else s.(items := s.items + [x], accepted := s.accepted + [x], depositing := s.depositing + {t})
    case Close(t) => s.(closed := true, depositing := s.depositing + {t})
    // The channel holds one signal; a second one is dropped.
    case Deposit(t) => s.(signal := true, depositing := s.depositing - {t})
    case Pop => s.(consumer := Looking)
    case Look =>
      if s.items != [] then s.(items := s.items[1..], delivered := s.delivered + [s.items[0]], consumer := Away)
      else if s.closed then s.(consumer := Away, ended := true)
      else s.(consumer := Parked)
    case Wake => s.(signal := false, consumer := Looking)
    case Cancel => s.(consumer := Away)
  }

  const EMPTY := State([], false, false, {}, Away, [], [], false)

  /** A consumer that waits although there is something to do has a signal waiting or about to come. */
  predicate NoLostSignal(s: State) {
    s.consumer == Parked && (s.items != [] || s.closed) ==> s.signal || s.depositing != {}
  }

  predicate Inv(s: State) {
    && NoLostSignal(s)
    && s.accepted == s.delivered + s.items
    && (s.ended ==> s.closed && s.items == [])
  }

  lemma StepKeepsInv(s: State, e: Step)
    requires Inv(s) && Enabled(s, e)
    ensures Inv(Next(s, e))
  {
    match e
    case Push(t, x) =>
      assert s.delivered + s.items + [x] == s.delivered + (s.items + [x]);
      assert t in s.depositing + {t};
    case Close(t) => assert t in s.depositing + {t};
    case Look =>
      if s.items != [] {
        assert s.delivered + s.items == s.delivered + [s.items[0]] + s.items[1..];
      }
    case _ =>
  }

  ghost predicate Legal(s: State, run: seq<Step>)
    decreases |run|
  {
    run == [] || (Enabled(s, run[0]) && Legal(Next(s, run[0]), run[1..]))
  }

  ghost function Play(s: State, run: seq<Step>): (r: State)
    requires Legal(s, run)
    decreases |run|
  {
    if run == [] then s else Play(Next(s, run[0]), run[1..])
  }

  lemma {:induction false} RunKeepsInv(s: State, run: seq<Step>)
    requires Inv(s) && Legal(s, run)
    ensures Inv(Play(s, run))
    decreases |run|
  {
    hide Inv, Enabled, Next;
    if run != [] {
      StepKeepsInv(s, run[0]);
      RunKeepsInv(Next(s, run[0]), run[1..]);
    }
  }

  /** In every reachable state the deliveries are a prefix of what was accepted, and the rest is queued in order. */
  lemma DeliveredInOrder(run: seq<Step>)
    requires Legal(EMPTY, run)
    ensures
      var s := Play(EMPTY, run);
      s.delivered <= s.accepted && s.items == s.accepted[|s.delivered|..]
  {
    RunKeepsInv(EMPTY, run);
  }

  /** In no reachable state does the consumer sleep on work without a signal that is there or on its way. */
  lemma NeverSleepsOnWork(run: seq<Step>)
    requires Legal(EMPTY, run)
    ensures
      var s := Play(EMPTY, run);
      s.consumer == Parked && (s.items != [] || s.closed) ==> s.signal || s.depositing != {}
  {
    RunKeepsInv(EMPTY, run);
  }

  lemma Played(s: State, e: Step, rest: seq<Step>)
    requires Enabled(s, e) && Legal(Next(s, e), rest)
    ensures Legal(s, [e] + rest) && Play(s, [e] + rest) == Play(Next(s, e), rest)
  {
    assert ([e] + rest)[1..] == rest;
  }

  lemma WakesBySignal(s: State) returns (run: seq<Step>)
    requires s.consumer == Parked && s.items != [] && s.signal
    ensures run == [Wake] + ([Look] + [])
    ensures Legal(s, run) && Play(s, run).delivered == s.delivered + [s.items[0]]
  {
    run := [Wake] + ([Look] + []);
    Played(Next(s, Wake), Look, []);
    Played(s, Wake, [Look] + []);
  }

  /**
   A parked consumer with an item queued can always deliver it by steps that are already due:
   the deposit of some producer, if the signal is not there yet, its own waking and looking.
   */
  lemma DueStepsDeliver(run: seq<Step>) returns (more: seq<Step>)
    requires Legal(EMPTY, run) && Play(EMPTY, run).consumer == Parked && Play(EMPTY, run).items != []
    ensures |more| <= 3 && forall i :: 0 <= i < |more| ==> more[i].Deposit? || more[i].Wake? || more[i].Look?
    ensures
      var s := Play(EMPTY, run);
      Legal(s, more) && Play(s, more).delivered == s.delivered + [s.items[0]]
  {
    RunKeepsInv(EMPTY, run);
    var s := Play(EMPTY, run);
    if s.signal {
      more := WakesBySignal(s);
    } else {
      assert (forall t :: t !in s.depositing) ==> s.depositing == {};
      var t :| t in s.depositing;
      var rest := WakesBySignal(Next(s, Deposit(t)));
      more := [Deposit(t)] + rest;
      Played(s, Deposit(t), rest);
    }
  }

  lemma EndedStep(s: State, e: Step)
    requires Inv(s) && s.ended && Enabled(s, e)
    ensures Next(s, e).ended && Next(s, e).accepted == s.accepted && Next(s, e).delivered == s.delivered
  {
  }

  /** Once `pop` has reported the end, everything accepted has been delivered and nothing more ever is. */
  lemma {:induction false} EndIsFinal(s: State, run: seq<Step>)
    requires Inv(s) && s.ended && Legal(s, run)
    ensures Play(s, run).delivered == s.delivered == s.accepted == Play(s, run).accepted
    decreases |run|
  {
    if run == [] {
      assert s.delivered + [] == s.delivered;
    } else {
      StepKeepsInv(s, run[0]);
      EndedStep(s, run[0]);
      EndIsFinal(Next(s, run[0]), run[1..]);
    }
  }

  /** The items pushed before the first close, in order. */
  function PushedOpen(run: seq<Step>): (r: seq<int>) {
    if run == [] || run[0].Close? then []
    else Offered(run[0]) + PushedOpen(run[1..])
  }

  function Offered(e: Step): (r: seq<int>) {
    if e.Push? then [e.item] else []
  }

  lemma OpenStep(s: State, e: Step)
    requires !s.closed && Enabled(s, e) && !e.Close?
    ensures !Next(s, e).closed && Next(s, e).accepted == s.accepted + Offered(e)
  {
  }

  lemma ClosedStep(s: State, e: Step)
    requires s.closed && Enabled(s, e)
    ensures Next(s, e).closed && Next(s, e).accepted == s.accepted
  {
  }

  /** A closed buffer accepts nothing more, but what it holds is still delivered. */
  lemma {:induction false} ClosedAccepts(s: State, run: seq<Step>)
    requires s.closed && Legal(s, run)
    ensures Play(s, run).closed && Play(s, run).accepted == s.accepted
    decreases |run|
  {
    if run != [] {
      ClosedStep(s, run[0]);
      ClosedAccepts(Next(s, run[0]), run[1..]);
    }
  }

  lemma {:induction false} AcceptsFrom(s: State, run: seq<Step>)
    requires !s.closed && Legal(s, run)
    ensures Play(s, run).accepted == s.accepted + PushedOpen(run)
    decreases |run|
  {
    if run == [] {
      assert s.accepted + [] == s.accepted;
    } else if run[0].Close? {
      ClosedAccepts(Next(s, run[0]), run[1..]);
      assert s.accepted + [] == s.accepted;
    } else {
      hide Next, Enabled, Offered;
      OpenStep(s, run[0]);
      AcceptsFrom(Next(s, run[0]), run[1..]);
      assert s.accepted + Offered(run[0]) + PushedOpen(run[1..])
          == s.accepted + (Offered(run[0]) + PushedOpen(run[1..]));
    }
  }

  /** Accepted is exactly what was pushed before the first close: an open buffer takes every push. */
  lemma OpenAccepts(run: seq<Step>)
    requires Legal(EMPTY, run)
    ensures Play(EMPTY, run).accepted == PushedOpen(run)
  {
    AcceptsFrom(EMPTY, run);
    assert [] + PushedOpen(run) == PushedOpen(run);
  }
}
