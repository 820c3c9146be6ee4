/** The queue of a blocking worker and its one consumer.  Producers put operations on the
    list under a lock and notify afterwards, outside it, if the consumer was waiting; the
    consumer executes what it pops until the list is closed and drained.  Every step below
    is one locked section, one notification, or one wake-up. */
module SynchronizedList {

  // An operation, by its identity.
  type Value = nat

  datatype Consumer = Polling | Parked | Executing(operation: Value) | Ended

  datatype Sync = Sync(
    list: seq<Value>,
    closed: bool,
    waiting: bool,
    owed: nat,               // notifications decided under the lock and not yet made
    consumer: Consumer,
    accepted: seq<Value>,    // what the emplace operations returned true for, in order
    executed: seq<Value>)

  datatype Action = EmplaceBack(v: Value) | EmplaceFront(v: Value) | Close | Notify | Poll | Finish | WakeSpuriously

  function Init(): Sync {
    Sync([], false, false, 0, Polling, [], [])
  }

  predicate Enabled(s: Sync, a: Action) {
    match a
    case EmplaceBack(_) => true
    case EmplaceFront(_) => true
    case Close => true
    case Notify => s.owed > 0
    case Poll => s.consumer.Polling?
    case Finish => s.consumer.Executing?
    case WakeSpuriously => s.consumer.Parked?
  }

  // The flag is taken down under the lock, and a notification owed if it was up.
  function TakeFlag(s: Sync): Sync {
    s.(waiting := false, owed := s.owed + if s.waiting then 1 else 0)
  }

  function Emplace(s: Sync, v: Value, front: bool): (Sync, bool) {
    if s.closed then (s, false)
    else
      var list := if front then [v] + s.list else s.list + [v];
      (TakeFlag(s.(list := list, accepted := s.accepted + [v])), true)
  }

  function Shut(s: Sync): Sync {
    if s.closed then s else TakeFlag(s.(closed := true))
  }

  // One round of the consumer's waiting loop.
  function PollOnce(s: Sync): Sync {
    if s.list != [] then s.(list := s.list[1..], consumer := Executing(s.list[0]))
    else if s.closed then s.(consumer := Ended)
    else s.(waiting := true, consumer := Parked)
  }

  function Step(s: Sync, a: Action): Sync
    requires Enabled(s, a)
  {
    match a
    case EmplaceBack(v) => Emplace(s, v, false).0
    case EmplaceFront(v) => Emplace(s, v, true).0
    case Close => Shut(s)
    case Notify => s.(owed := s.owed - 1, consumer := if s.consumer.Parked? then Polling else s.consumer)
    case Poll => PollOnce(s)
    case Finish => s.(executed := s.executed + [s.consumer.operation], consumer := Polling)
    case WakeSpuriously => s.(consumer := Polling)
  }

  predicate Runnable(s: Sync, actions: seq<Action>)
    decreases |actions|
  {
    actions == [] || (Enabled(s, actions[0]) && Runnable(Step(s, actions[0]), actions[1..]))
  }

  function After(s: Sync, actions: seq<Action>): Sync
    requires Runnable(s, actions)
    decreases |actions|
  {
    if actions == [] then s else After(Step(s, actions[0]), actions[1..])
  }

  // No lost wake-up.

  ghost predicate ParkedInv(s: Sync) {
    && (s.consumer.Parked? && s.waiting ==> s.list == [] && !s.closed)
    && (s.consumer.Parked? && !s.waiting ==> s.owed > 0)
    && (s.consumer.Ended? ==> s.closed && s.list == [])
  }

  lemma StepKeepsParked(s: Sync, a: Action)
    requires ParkedInv(s) && Enabled(s, a)
    ensures ParkedInv(Step(s, a))
  {
    match a
    case EmplaceBack(_) =>
    case EmplaceFront(_) =>
    case Close =>
    case Notify =>
    case Poll =>
    case Finish =>
    case WakeSpuriously =>
  }

  lemma {:induction false} RunKeepsParked(s: Sync, actions: seq<Action>)
    requires ParkedInv(s) && Runnable(s, actions)
    ensures ParkedInv(After(s, actions))
    decreases |actions|
  {
    if actions == [] {
    } else {
      StepKeepsParked(s, actions[0]);
      RunKeepsParked(Step(s, actions[0]), actions[1..]);
    }
  }

  /** In every run, a consumer parked with no notification owed has the flag up, and the list
      is empty and open. */
  lemma NoLostWakeUp(actions: seq<Action>)
    requires Runnable(Init(), actions)
    ensures var s := After(Init(), actions);
      s.consumer.Parked? && s.owed == 0 ==> s.waiting && s.list == [] && !s.closed
  {
    RunKeepsParked(Init(), actions);
  }

  // Order and conservation.

  function Current(s: Sync): seq<Value> {
    if s.consumer.Executing? then [s.consumer.operation] else []
  }

  // Everything accepted, from the oldest to the newest.
  function Path(s: Sync): seq<Value> {
    s.executed + Current(s) + s.list
  }

  lemma StepKeepsOrder(s: Sync, a: Action)
    requires Enabled(s, a) && !a.EmplaceFront? && Path(s) == s.accepted
    ensures Path(Step(s, a)) == Step(s, a).accepted
  {
    match a
    case EmplaceBack(v) => assert Path(Emplace(s, v, false).0) == if s.closed then Path(s) else Path(s) + [v];
    case Close =>
    case Notify =>
    case Poll =>
    case Finish =>
    case WakeSpuriously =>
  }

  lemma {:induction false} RunKeepsOrder(s: Sync, actions: seq<Action>)
    requires Runnable(s, actions) && Path(s) == s.accepted
    requires forall i | 0 <= i < |actions| :: !actions[i].EmplaceFront?
    ensures Path(After(s, actions)) == After(s, actions).accepted
    decreases |actions|
  {
    if actions == [] {
    } else {
      StepKeepsOrder(s, actions[0]);
      RunKeepsOrder(Step(s, actions[0]), actions[1..]);
    }
  }

  function Count(s: seq<Value>, v: Value): nat {
    if s == [] then 0 else Count(s[1..], v) + if s[0] == v then 1 else 0
  }

  lemma {:induction false} CountSum(a: seq<Value>, b: seq<Value>, v: Value)
    ensures Count(a + b, v) == Count(a, v) + Count(b, v)
  {
    if a == [] {
      assert a + b == b;
    } else {
      assert (a + b)[1..] == a[1..] + b;
      CountSum(a[1..], b, v);
    }
  }

  function Places(s: Sync, v: Value): nat {
    Count(s.executed, v) + Count(Current(s), v) + Count(s.list, v)
  }

  lemma EmplaceConserves(s: Sync, x: Value, front: bool, v: Value)
    requires Places(s, v) == Count(s.accepted, v)
    ensures Places(Emplace(s, x, front).0, v) == Count(Emplace(s, x, front).0.accepted, v)
  {
    CountSum(s.accepted, [x], v);
    CountSum(s.list, [x], v);
    CountSum([x], s.list, v);
  }

  lemma StepConserves(s: Sync, a: Action, v: Value)
    requires Enabled(s, a) && Places(s, v) == Count(s.accepted, v)
    ensures Places(Step(s, a), v) == Count(Step(s, a).accepted, v)
  {
    match a
    case EmplaceBack(x) => EmplaceConserves(s, x, false, v);
    case EmplaceFront(x) => EmplaceConserves(s, x, true, v);
    case Close =>
    case Notify =>
    case Poll =>
      if s.list != [] {
        assert Current(Step(s, a)) == [s.list[0]];
        assert Count([s.list[0]], v) == if s.list[0] == v then 1 else 0;
      }
    case Finish => CountSum(s.executed, Current(s), v);
    case WakeSpuriously =>
  }

  /** Whichever end operations are put on, each accepted one is executed, in execution, or on
      the list: as often as it was accepted. */
  lemma {:induction false} RunConserves(s: Sync, actions: seq<Action>, v: Value)
    requires Runnable(s, actions) && Places(s, v) == Count(s.accepted, v)
    ensures Places(After(s, actions), v) == Count(After(s, actions).accepted, v)
    decreases |actions|
  {
    if actions == [] {
    } else {
      StepConserves(s, actions[0], v);
      RunConserves(Step(s, actions[0]), actions[1..], v);
    }
  }

  /** A worker schedules with push_back only.  When its destructor has joined the thread, every
      operation it accepted has been executed, once, in the order of acceptance. */
  lemma ExecutedInOrder(actions: seq<Action>)
    requires Runnable(Init(), actions)
    requires forall i | 0 <= i < |actions| :: !actions[i].EmplaceFront?
    ensures var s := After(Init(), actions);
      s.executed <= s.accepted && (s.consumer.Ended? ==> s.executed == s.accepted)
  {
    RunKeepsParked(Init(), actions);
    RunKeepsOrder(Init(), actions);
  }

  // What each step achieves.

  lemma {:induction false} ClosedSince(s: Sync, actions: seq<Action>)
    requires Runnable(s, actions)
    ensures After(s, actions).closed <==> s.closed || Close in actions
    decreases |actions|
  {
    if actions == [] {
    } else {
      ClosedSince(Step(s, actions[0]), actions[1..]);
    }
  }

  /** In every run the list is closed if and only if close() was called. */
  lemma ClosedExactlyWhen(actions: seq<Action>)
    requires Runnable(Init(), actions)
    ensures After(Init(), actions).closed <==> Close in actions
  {
    ClosedSince(Init(), actions);
  }

  // Only the list, the accepted operations, the flag and the notifications differ, and a
  // parked consumer is about to be notified.
  predicate Alerted(s: Sync, s': Sync) {
    && s'.consumer == s.consumer && s'.executed == s.executed
    && (s'.consumer.Parked? ==> s'.owed > 0)
  }

  /** An operation is accepted if and only if close() was not called: it is at the end of the
      list it was put on, and a parked consumer is about to be notified.  A refused one
      changes nothing. */
  lemma EmplaceAnswers(actions: seq<Action>, v: Value, front: bool)
    requires Runnable(Init(), actions)
    ensures var s := After(Init(), actions);
      var (s', accepted) := Emplace(s, v, front);
      && (accepted <==> Close !in actions)
      && if accepted then
           && s'.list == (if front then [v] + s.list else s.list + [v]) && s'.accepted == s.accepted + [v]
           && !s'.closed && Alerted(s, s')
         else s' == s
  {
    ClosedExactlyWhen(actions);
    RunKeepsParked(Init(), actions);
  }

  /** close() closes the list, keeps what is on it, and does not leave the consumer asleep. */
  lemma CloseAnswers(actions: seq<Action>)
    requires Runnable(Init(), actions)
    ensures var s, s' := After(Init(), actions), Shut(After(Init(), actions));
      s'.closed && s'.list == s.list && s'.accepted == s.accepted && Alerted(s, s')
  {
    RunKeepsParked(Init(), actions);
  }

  /** A pop takes the oldest accepted operation not yet executed whenever there is one, closed
      or not; without one it ends exactly when close() was called, and waits otherwise. */
  lemma PopAnswers(actions: seq<Action>)
    requires Runnable(Init(), actions) && After(Init(), actions).consumer.Polling?
    requires forall i | 0 <= i < |actions| :: !actions[i].EmplaceFront?
    ensures var s, s' := After(Init(), actions), Step(After(Init(), actions), Poll);
      && s'.accepted == s.accepted && s'.executed == s.executed && s'.closed == s.closed
      && s'.consumer == if |s.executed| < |s.accepted| then Executing(s.accepted[|s.executed|])
                        else if Close in actions then Ended else Parked
  {
    ClosedExactlyWhen(actions);
    RunKeepsOrder(Init(), actions);
    var s := After(Init(), actions);
    assert s.accepted == s.executed + s.list;
  }

  /** An operation that finishes has been executed, as the next one in order of acceptance, and
      the consumer goes on. */
  lemma FinishAnswers(actions: seq<Action>)
    requires Runnable(Init(), actions) && After(Init(), actions).consumer.Executing?
    requires forall i | 0 <= i < |actions| :: !actions[i].EmplaceFront?
    ensures var s, s' := After(Init(), actions), Step(After(Init(), actions), Finish);
      && |s.executed| < |s.accepted| && s'.executed == s.accepted[..|s.executed| + 1]
      && s'.consumer.Polling? && s'.list == s.list && s'.accepted == s.accepted
  {
    RunKeepsOrder(Init(), actions);
    var s := After(Init(), actions);
    assert s.accepted == s.executed + [s.consumer.operation] + s.list;
  }

  /** A notification leaves no consumer parked, and changes nothing but that. */
  lemma NotifyAnswers(s: Sync)
    requires Enabled(s, Notify)
    ensures var s' := Step(s, Notify);
      && s'.owed == s.owed - 1 && !s'.consumer.Parked? && (!s.consumer.Parked? ==> s'.consumer == s.consumer)
      && s' == s.(owed := s'.owed, consumer := s'.consumer)
  {
  }

  // The destructor returns: it closes the list and joins.

  function PhaseRank(c: Consumer): nat {
    match c
    case Polling => 1
    case Parked => 0
    case Executing(_) => 2
    case Ended => 0
  }

  // The steps left to a closed list.
  function Rank(s: Sync): nat {
    2 * |s.list| + 2 * s.owed + PhaseRank(s.consumer)
  }

  /** A closed list whose consumer has not ended can always make a step, without the help of a
      spurious wake-up. */
  lemma ClosedNeverStuck(s: Sync)
    requires ParkedInv(s) && s.closed && !s.consumer.Ended?
    ensures exists a | a in [Notify, Poll, Finish] :: Enabled(s, a)
  {
    var a := if s.consumer.Polling? then Poll else if s.consumer.Executing? then Finish else Notify;
    assert a in [Notify, Poll, Finish] && Enabled(s, a);
  }

  lemma ClosedStepRank(s: Sync, a: Action)
    requires s.closed && Enabled(s, a)
    ensures Step(s, a).closed
    ensures a in [Notify, Poll, Finish] ==> Rank(Step(s, a)) < Rank(s)
    ensures a == WakeSpuriously ==> Rank(Step(s, a)) == Rank(s) + 1
    ensures a.EmplaceBack? || a.EmplaceFront? || a.Close? ==> Step(s, a) == s
  {
  }

  // Producers that come too late and repeated closing change nothing and are not counted.
  function Moves(actions: seq<Action>): nat {
    if actions == [] then 0
    else Moves(actions[1..]) + if actions[0] in [Notify, Poll, Finish] then 1 else 0
  }

  function Spurious(actions: seq<Action>): nat {
    if actions == [] then 0 else Spurious(actions[1..]) + if actions[0] == WakeSpuriously then 1 else 0
  }

  /** After close, the consumer and the notifiers make a bounded number of steps in any run;
      each spurious wake-up adds at most one. */
  lemma {:induction false} ClosedDrains(s: Sync, actions: seq<Action>)
    requires s.closed && Runnable(s, actions)
    ensures After(s, actions).closed
    ensures Moves(actions) + Rank(After(s, actions)) <= Rank(s) + Spurious(actions)
    decreases |actions|
  {
    if actions == [] {
    } else {
      ClosedStepRank(s, actions[0]);
      ClosedDrains(Step(s, actions[0]), actions[1..]);
    }
  }

  // The list as an object: each method is the section of the source that holds the lock.

  datatype Popped = Took(v: Value) | NoMore | Wait

  class List {
    var list: seq<Value>
    var closed: bool
    var waiting: bool

    constructor ()
      ensures list == [] && !closed && !waiting
    {
      list, closed, waiting := [], false, false;
    }

    // The object's part of a state whose other parts are `s`'s.
    ghost function Of(s: Sync): Sync
      reads this
    {
      s.(list := list, closed := closed, waiting := waiting)
    }

    method EmplaceBack(v: Value, ghost s: Sync) returns (accepted: bool, notify: bool)
      requires Of(s) == s
      modifies this
      ensures accepted == Emplace(s, v, false).1
      ensures Of(Emplace(s, v, false).0) == Emplace(s, v, false).0
      ensures Emplace(s, v, false).0.owed == s.owed + if notify then 1 else 0
    {
      if closed {
        return false, false;
      }
      list := list + [v];
      notify := waiting;
      waiting := false;
      accepted := true;
    }

    method EmplaceFront(v: Value, ghost s: Sync) returns (accepted: bool, notify: bool)
      requires Of(s) == s
      modifies this
      ensures accepted == Emplace(s, v, true).1
      ensures Of(Emplace(s, v, true).0) == Emplace(s, v, true).0
      ensures Emplace(s, v, true).0.owed == s.owed + if notify then 1 else 0
    {
      if closed {
        return false, false;
      }
      list := [v] + list;
      notify := waiting;
      waiting := false;
      accepted := true;
    }

    method CloseList(ghost s: Sync) returns (notify: bool)
      requires Of(s) == s
      modifies this
      ensures Of(Shut(s)) == Shut(s) && Shut(s).owed == s.owed + if notify then 1 else 0
    {
      notify := false;
      if !closed {
        closed := true;
        notify := waiting;
        waiting := false;
      }
    }

    // One round of the loop in pop(): it ends the loop, or waits and releases the lock.
    method PopRound(ghost s: Sync) returns (popped: Popped)
      requires Of(s) == s && s.consumer == Polling
      modifies this
      ensures Of(PollOnce(s)) == PollOnce(s)
      ensures PollOnce(s).consumer == match popped
                                      case Took(v) => Executing(v)
                                      case NoMore => Ended
                                      case Wait => Parked
    {
      if list == [] {
        if closed {
          return NoMore;
        }
        waiting := true;
        return Wait;
      }
      popped := Took(list[0]);
      list := list[1..];
    }
  }
}
