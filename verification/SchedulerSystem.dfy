/** Several schedulers and awaitables passing coroutine handles between them.  Each
    action is one critical section or one step of a run thread; a run interleaves them
    in any way.  The result is exclusive ownership: a handle is always in one place. */
module SchedulerSystem {
  import opened Scheduler

  // An awaitable that may hold a suspended coroutine, with its destination scheduler.
  datatype Awaitable = Awaitable(handle: Slot, destination: nat)

  datatype System = System(
    scheds: seq<Sched>,
    awaitables: seq<Awaitable>,
    flights: seq<Flight>,   // handles on their way into a scheduler's queue
    created: set<nat>,      // every handle that was ever scheduled
    destroyed: seq<nat>,    // handles of coroutines that ended
    rejected: seq<Flight>,  // deliveries that a halted scheduler refused by throwing
    ended: set<nat>)        // handles whose coroutine ran to its end

  // Who acts: some other thread, or the run thread of a scheduler in its batch.
  datatype Actor = Outside | On(s: nat)

  // A handle that `actor` took and has still to pass to the schedule_() of scheduler `to`.
  datatype Flight = Flight(actor: Actor, to: nat, h: nat)

  datatype Action =
    | Spawn(actor: Actor, to: nat, h: nat)  // schedule() releases the handle of a new coroutine
    | Start(i: nat)      // run() entered, or a parked run thread relocking after a wake-up
    | SpuriousWake(i: nat)
    | Next(i: nat)       // the batch loop takes a handle and resumes it
    | Yielded(i: nat)
    | Completed(i: nat)
    | Await(i: nat)      // await_suspend(): a new awaitable takes the handle
    | Migrate(i: nat, to: nat)
    | Return(i: nat)     // back in the batch loop after the handle was given away
    | WakeAwaitable(actor: Actor, k: nat)   // resume(): the handle is unset, the lock released
    | Land(f: nat)       // schedule_() of a handle on its way
    | FinishBatch(i: nat)
    | SuspendOp(i: nat) | ResumeOp(i: nat) | HaltOp(i: nat)

  function Init(n: nat): System {
    System(seq(n, _ => Scheduler.Init()), [], [], {}, [], [], {})
  }

  // ---- Where handles are ----

  function Count(s: seq<nat>, h: nat): nat {
    if s == [] then 0 else (if s[0] == h then 1 else 0) + Count(s[1..], h)
  }

  // How often a scheduler, the schedulers, and the awaitables hold handle `h`.
  function SchedHolds(s: Sched, h: nat): nat {
    Count(s.queue, h) + Count(s.local, h) + Count(InSlot(s.co), h)
  }

  function SchedsHold(ss: seq<Sched>, h: nat): nat {
    if ss == [] then 0 else SchedHolds(ss[0], h) + SchedsHold(ss[1..], h)
  }

  function AwaitablesHold(ks: seq<Awaitable>, h: nat): nat {
    if ks == [] then 0 else Count(InSlot(ks[0].handle), h) + AwaitablesHold(ks[1..], h)
  }

  function FlightsHold(fs: seq<Flight>, h: nat): nat {
    if fs == [] then 0 else (if fs[0].h == h then 1 else 0) + FlightsHold(fs[1..], h)
  }

  /** In how many places of the system handle `h` is. */
  function Places(sys: System, h: nat): nat {
    SchedsHold(sys.scheds, h) + AwaitablesHold(sys.awaitables, h) + FlightsHold(sys.flights, h)
    + Count(sys.destroyed, h) + FlightsHold(sys.rejected, h)
  }

  lemma {:induction false} CountAppend(a: seq<nat>, b: seq<nat>, h: nat)
    ensures Count(a + b, h) == Count(a, h) + Count(b, h)
    decreases |a|
  {
    if a == [] {
      assert a + b == b;
    } else {
      assert (a + b)[1..] == a[1..] + b;
      CountAppend(a[1..], b, h);
    }
  }

  lemma {:induction false} ReplaceSched(ss: seq<Sched>, i: nat, s: Sched, h: nat)
    requires i < |ss|
    ensures SchedsHold(ss[i := s], h) + SchedHolds(ss[i], h) == SchedsHold(ss, h) + SchedHolds(s, h)
    decreases i
  {
    if i > 0 {
      assert ss[i := s][1..] == ss[1..][i - 1 := s];
      ReplaceSched(ss[1..], i - 1, s, h);
    } else {
      assert ss[i := s][1..] == ss[1..];
    }
  }

  lemma {:induction false} ReplaceAwaitable(ks: seq<Awaitable>, k: nat, a: Awaitable, h: nat)
    requires k < |ks|
    ensures AwaitablesHold(ks[k := a], h) + Count(InSlot(ks[k].handle), h)
         == AwaitablesHold(ks, h) + Count(InSlot(a.handle), h)
    decreases k
  {
    if k > 0 {
      assert ks[k := a][1..] == ks[1..][k - 1 := a];
      ReplaceAwaitable(ks[1..], k - 1, a, h);
    } else {
      assert ks[k := a][1..] == ks[1..];
    }
  }

  lemma {:induction false} AppendAwaitable(ks: seq<Awaitable>, a: Awaitable, h: nat)
    ensures AwaitablesHold(ks + [a], h) == AwaitablesHold(ks, h) + Count(InSlot(a.handle), h)
    decreases |ks|
  {
    if ks == [] {
      assert ks + [a] == [a] && [a][1..] == [];
    } else {
      assert (ks + [a])[1..] == ks[1..] + [a];
      AppendAwaitable(ks[1..], a, h);
    }
  }

  lemma {:induction false} AppendFlight(fs: seq<Flight>, f: Flight, h: nat)
    ensures FlightsHold(fs + [f], h) == FlightsHold(fs, h) + if f.h == h then 1 else 0
    decreases |fs|
  {
    if fs == [] {
      assert fs + [f] == [f] && [f][1..] == [];
    } else {
      assert (fs + [f])[1..] == fs[1..] + [f];
      AppendFlight(fs[1..], f, h);
    }
  }

  function Without(fs: seq<Flight>, k: nat): seq<Flight>
    requires k < |fs|
  {
    fs[..k] + fs[k + 1..]
  }

  lemma {:induction false} RemoveFlight(fs: seq<Flight>, k: nat, h: nat)
    requires k < |fs|
    ensures FlightsHold(Without(fs, k), h) + (if fs[k].h == h then 1 else 0) == FlightsHold(fs, h)
    decreases k
  {
    if k == 0 {
      assert Without(fs, 0) == fs[1..];
    } else {
      assert Without(fs, k)[0] == fs[0] && Without(fs, k)[1..] == Without(fs[1..], k - 1);
      RemoveFlight(fs[1..], k - 1, h);
    }
  }

  // ---- The actions ----

  predicate Acting(sys: System, actor: Actor) {
    actor.On? ==> actor.s < |sys.scheds| && sys.scheds[actor.s].pc.InBatch?
  }

  // A thread delivers a handle that it took before it does anything else.
  predicate Delivering(sys: System, actor: Actor) {
    actor.On? && exists k | 0 <= k < |sys.flights| :: sys.flights[k].actor == actor
  }

  function With(sys: System, i: nat, s: Sched): System
    requires i < |sys.scheds|
  {
    sys.(scheds := sys.scheds[i := s])
  }

  // schedule_() of a handle: locally, remotely, or refused.
  function Deliver(sys: System, f: Flight): System
    requires f.to < |sys.scheds|
  {
    var s := sys.scheds[f.to];
    if f.actor == On(f.to) then With(sys, f.to, ScheduleLocal(s, f.h))
    else if s.status.Halted? then sys.(rejected := sys.rejected + [f])
    else With(sys, f.to, ScheduleRemote(s, f.h))
  }

  function TakeOff(sys: System, f: Flight): System {
    sys.(flights := sys.flights + [f])
  }

  // What action `a` does to the scheduler whose run thread or operation it is.
  function OwnStep(s: Sched, a: Action): Sched
    requires OwnEnabled(s, a)
  {
    match a
    case Start(_) => RunLocked(s)
    case SpuriousWake(_) => s.(awake := true)
    case Next(_) => TakeNext(s)
    case Yielded(_) => Yield(s)
    case Completed(_) => Complete(s)
    case Return(_) => s.(running := false)
    case FinishBatch(_) => EndBatch(s)
    case SuspendOp(_) => Suspend(s)
    case ResumeOp(_) => Resume(s)
    case HaltOp(_) => Halt(s)
    case Await(_) => Release(s)
    case Migrate(_, _) => Release(s)
    case Spawn(_, _, _) => s
    case WakeAwaitable(_, _) => s
    case Land(_) => s
  }

  predicate OwnEnabled(s: Sched, a: Action) {
    match a
    case Start(_) => CanWake(s)
    case SpuriousWake(_) => s.pc.OnCoroutinesCv? || s.pc.OnResumeCv?
    case Next(_) => CanTakeNext(s) && s.local != []
    case Yielded(_) => Occupied(s)
    case Completed(_) => Occupied(s)
    case Await(_) => Occupied(s)
    case Migrate(_, _) => Occupied(s)
    case Return(_) => s.pc.InBatch? && s.running && s.co.Empty?
    case FinishBatch(_) => CanEndBatch(s)
    case _ => true
  }

  // The handle in the slot is destroyed, or goes elsewhere.
  predicate DestroysSlot(a: Action) {
    a.Next? || a.FinishBatch?
  }

  predicate EmptiesSlot(a: Action) {
    DestroysSlot(a) || a.Await? || a.Migrate?
  }

  // The steps of scheduler `i`'s own run thread inside its batch.
  predicate InTurn(a: Action) {
    a.Next? || a.Yielded? || a.Completed? || a.Await? || a.Migrate? || a.Return? || a.FinishBatch?
  }

  predicate Enabled(sys: System, a: Action) {
    match a
    case Spawn(actor, to, h) =>
      to < |sys.scheds| && Acting(sys, actor) && !Delivering(sys, actor) && h !in sys.created
    case WakeAwaitable(actor, k) =>
      && k < |sys.awaitables| && Acting(sys, actor) && !Delivering(sys, actor)
      && sys.awaitables[k].handle.Owns? && sys.awaitables[k].destination < |sys.scheds|
    case Land(f) => f < |sys.flights| && sys.flights[f].to < |sys.scheds|
    case _ =>
      && a.i < |sys.scheds| && OwnEnabled(sys.scheds[a.i], a)
      && (InTurn(a) ==> !Delivering(sys, On(a.i)))
      && (a.Migrate? ==> a.to < |sys.scheds|)
  }

  function Perform(sys: System, a: Action): System
    requires Enabled(sys, a)
  {
    match a
    case Spawn(actor, to, h) => TakeOff(sys.(created := sys.created + {h}), Flight(actor, to, h))
    case WakeAwaitable(actor, k) =>
      var awt := sys.awaitables[k];
      TakeOff(sys.(awaitables := sys.awaitables[k := awt.(handle := Empty)]),
              Flight(actor, awt.destination, awt.handle.h))
    case Land(f) => Deliver(sys.(flights := Without(sys.flights, f)), sys.flights[f])
    case Migrate(i, to) =>
      TakeOff(With(sys, i, OwnStep(sys.scheds[i], a)), Flight(On(i), to, sys.scheds[i].co.h))
    case _ =>
      var s := sys.scheds[a.i];
      With(sys, a.i, OwnStep(s, a)).(
        awaitables := if a.Await? then sys.awaitables + [Awaitable(s.co, a.i)] else sys.awaitables,
        destroyed := if DestroysSlot(a) then sys.destroyed + InSlot(s.co) else sys.destroyed,
        ended := if a.Completed? then sys.ended + (set h | h in InSlot(s.co)) else sys.ended)
  }

  function Step(sys: System, a: Action): System {
    if Enabled(sys, a) then Perform(sys, a) else sys
  }

  function After(n: nat, acts: seq<Action>): System {
    if acts == [] then Init(n) else Step(After(n, acts[..|acts| - 1]), acts[|acts| - 1])
  }

  // ---- The invariant ----

  /** Each scheduler is sound, and a run thread that delivers a handle is in its batch. */
  ghost predicate SchedsInv(sys: System) {
    && (forall i | 0 <= i < |sys.scheds| :: Scheduler.Inv(sys.scheds[i]))
    && (forall k | 0 <= k < |sys.flights| :: sys.flights[k].to < |sys.scheds| && Acting(sys, sys.flights[k].actor))
  }

  /** Every handle ever scheduled is in exactly one place, and no other handle is anywhere. */
  ghost predicate Owned(sys: System) {
    forall h :: Places(sys, h) == if h in sys.created then 1 else 0
  }

  lemma WithHolds(sys: System, i: nat, s: Sched, h: nat)
    requires i < |sys.scheds|
    ensures Places(With(sys, i, s), h) + SchedHolds(sys.scheds[i], h) == Places(sys, h) + SchedHolds(s, h)
  {
    ReplaceSched(sys.scheds, i, s, h);
  }

  /** schedule_() puts the handle in one place, whoever calls it. */
  lemma DeliverAdds(sys: System, f: Flight, x: nat)
    requires f.to < |sys.scheds|
    ensures Places(Deliver(sys, f), x) == Places(sys, x) + Count([f.h], x)
  {
    var s := sys.scheds[f.to];
    CountAppend(s.local, [f.h], x);
    CountAppend(s.queue, [f.h], x);
    AppendFlight(sys.rejected, f, x);
    if f.actor == On(f.to) {
      WithHolds(sys, f.to, ScheduleLocal(s, f.h), x);
    } else if !s.status.Halted? {
      WithHolds(sys, f.to, ScheduleRemote(s, f.h), x);
    }
  }

  lemma RunLockedHolds(s: Sched, h: nat)
    requires s.local == []
    ensures SchedHolds(RunLocked(s), h) == SchedHolds(s, h)
  {
  }

  lemma EndBatchHolds(s: Sched, h: nat)
    requires CanEndBatch(s)
    ensures SchedHolds(EndBatch(s), h) + Count(InSlot(s.co), h) == SchedHolds(s, h)
  {
    CountAppend(s.queue, s.local, h);
    RunLockedHolds(Requeued(s), h);
  }

  lemma TakeNextHolds(s: Sched, h: nat)
    requires CanTakeNext(s) && s.local != []
    ensures SchedHolds(TakeNext(s), h) + Count(InSlot(s.co), h) == SchedHolds(s, h)
  {
    assert s.local == [s.local[0]] + s.local[1..];
    CountAppend([s.local[0]], s.local[1..], h);
  }

  // A step keeps the handles of its scheduler, except the one it takes out of the slot.
  lemma OwnStepHolds(s: Sched, a: Action, h: nat)
    requires Scheduler.Inv(s) && OwnEnabled(s, a)
    ensures SchedHolds(OwnStep(s, a), h) + (if EmptiesSlot(a) then Count(InSlot(s.co), h) else 0) == SchedHolds(s, h)
  {
    if a.Next? { TakeNextHolds(s, h); }
    if a.FinishBatch? { EndBatchHolds(s, h); }
    if a.Yielded? { CountAppend(s.local, [s.co.h], h); }
    if a.Start? { RunLockedHolds(s, h); }
  }

  lemma OwnStepKeepsInv(s: Sched, a: Action)
    requires Scheduler.Inv(s) && OwnEnabled(s, a)
    ensures Scheduler.Inv(OwnStep(s, a))
  {
    OperationsKeepInv(s, 0);
    if a.Start? { RunLockedKeepsInv(s); }
    if a.FinishBatch? { BatchIsFair(s); }
    if a.Next? { TakeNextKeepsInv(s); }
    if Occupied(s) { OutcomesKeepInv(s); }
  }

  lemma SpawnKeepsPlaces(sys: System, a: Action, x: nat)
    requires a.Spawn? && Enabled(sys, a)
    ensures Places(Perform(sys, a), x) == Places(sys, x) + Count([a.h], x)
  {
    AppendFlight(sys.flights, Flight(a.actor, a.to, a.h), x);
  }

  lemma WakeKeepsPlaces(sys: System, a: Action, x: nat)
    requires a.WakeAwaitable? && Enabled(sys, a)
    ensures Places(Perform(sys, a), x) == Places(sys, x)
  {
    var awt := sys.awaitables[a.k];
    ReplaceAwaitable(sys.awaitables, a.k, awt.(handle := Empty), x);
    AppendFlight(sys.flights, Flight(a.actor, awt.destination, awt.handle.h), x);
  }

  lemma LandKeepsPlaces(sys: System, a: Action, x: nat)
    requires a.Land? && Enabled(sys, a)
    ensures Places(Perform(sys, a), x) == Places(sys, x)
  {
    RemoveFlight(sys.flights, a.f, x);
    DeliverAdds(sys.(flights := Without(sys.flights, a.f)), sys.flights[a.f], x);
  }

  lemma MigrateKeepsPlaces(sys: System, a: Action, x: nat)
    requires a.Migrate? && Enabled(sys, a) && SchedsInv(sys)
    ensures Places(Perform(sys, a), x) == Places(sys, x)
  {
    var s := sys.scheds[a.i];
    OwnStepHolds(s, a, x);
    WithHolds(sys, a.i, Release(s), x);
    AppendFlight(sys.flights, Flight(On(a.i), a.to, s.co.h), x);
  }

  lemma OwnStepKeepsPlaces(sys: System, a: Action, x: nat)
    requires !a.Spawn? && !a.WakeAwaitable? && !a.Land? && !a.Migrate? && Enabled(sys, a) && SchedsInv(sys)
    ensures Places(Perform(sys, a), x) == Places(sys, x)
  {
    var s := sys.scheds[a.i];
    OwnStepHolds(s, a, x);
    WithHolds(sys, a.i, OwnStep(s, a), x);
    if a.Await? { AppendAwaitable(sys.awaitables, Awaitable(s.co, a.i), x); }
    CountAppend(sys.destroyed, InSlot(s.co), x);
  }

  // What an action does to one scheduler: its own step, an arrival, or nothing.
  lemma OneSched(sys: System, a: Action, i: nat)
    requires Enabled(sys, a) && i < |sys.scheds|
    ensures |Perform(sys, a).scheds| == |sys.scheds|
    ensures Perform(sys, a).scheds[i] == ThereAfter(sys, a, i)
  {
  }

  // The flight that lands on scheduler `i`, and how.
  predicate LandsLocally(sys: System, a: Action, i: nat) {
    a.Land? && a.f < |sys.flights| && sys.flights[a.f].to == i && sys.flights[a.f].actor == On(i)
  }

  predicate LandsRemotely(sys: System, a: Action, i: nat) {
    && a.Land? && a.f < |sys.flights| && sys.flights[a.f].to == i && sys.flights[a.f].actor != On(i)
    && i < |sys.scheds| && !sys.scheds[i].status.Halted?
  }

  predicate OwnAction(a: Action, i: nat) {
    !a.Spawn? && !a.WakeAwaitable? && !a.Land? && a.i == i
  }

  function ThereAfter(sys: System, a: Action, i: nat): Sched
    requires Enabled(sys, a) && i < |sys.scheds|
  {
    var s := sys.scheds[i];
    if LandsLocally(sys, a, i) then ScheduleLocal(s, sys.flights[a.f].h)
    else if LandsRemotely(sys, a, i) then ScheduleRemote(s, sys.flights[a.f].h)
    else if OwnAction(a, i) then OwnStep(s, a)
    else s
  }

  lemma OneSchedKeepsInv(sys: System, a: Action, i: nat)
    requires Enabled(sys, a) && SchedsInv(sys) && i < |sys.scheds|
    ensures Scheduler.Inv(ThereAfter(sys, a, i))
  {
    if a.Land? {
      OperationsKeepInv(sys.scheds[i], sys.flights[a.f].h);
    }
    if OwnAction(a, i) {
      OwnStepKeepsInv(sys.scheds[i], a);
    }
  }

  // Only the end of a batch leaves it, and not while the thread delivers a handle.
  lemma FlightKeepsActing(sys: System, a: Action, k: nat)
    requires Enabled(sys, a) && SchedsInv(sys) && k < |sys.flights|
    ensures Acting(Perform(sys, a), sys.flights[k].actor)
  {
    var actor := sys.flights[k].actor;
    if actor.On? {
      OneSched(sys, a, actor.s);
      assert Delivering(sys, actor);
    }
  }

  lemma StepKeepsInv(sys: System, a: Action)
    requires Enabled(sys, a) && SchedsInv(sys)
    ensures SchedsInv(Perform(sys, a)) && |Perform(sys, a).scheds| == |sys.scheds|
  {
    var sys' := Perform(sys, a);
    forall i | 0 <= i < |sys'.scheds| ensures Scheduler.Inv(sys'.scheds[i]) {
      OneSched(sys, a, i);
      OneSchedKeepsInv(sys, a, i);
    }
    forall k | 0 <= k < |sys'.flights| ensures sys'.flights[k].to < |sys'.scheds| && Acting(sys', sys'.flights[k].actor) {
      if a.Land? {
        FlightKeepsActing(sys, a, if k < a.f then k else k + 1);
      } else if k < |sys.flights| {
        FlightKeepsActing(sys, a, k);
      }
    }
  }

  lemma StepKeepsPlaces(sys: System, a: Action, x: nat)
    requires Enabled(sys, a) && SchedsInv(sys)
    ensures Places(Perform(sys, a), x) == Places(sys, x) + if a.Spawn? && a.h == x then 1 else 0
  {
    match a
    case Spawn(_, _, _) => SpawnKeepsPlaces(sys, a, x);
    case WakeAwaitable(_, _) => WakeKeepsPlaces(sys, a, x);
    case Land(_) => LandKeepsPlaces(sys, a, x);
    case Migrate(_, _) => MigrateKeepsPlaces(sys, a, x);
    case _ => OwnStepKeepsPlaces(sys, a, x);
  }

  lemma StepCreates(sys: System, a: Action)
    requires Enabled(sys, a)
    ensures Perform(sys, a).created == sys.created + (if a.Spawn? then {a.h} else {})
  {
  }

  /** Every action moves handles between places and neither copies nor loses one. */
  lemma StepKeepsOwnership(sys: System, a: Action)
    requires Enabled(sys, a) && SchedsInv(sys) && Owned(sys)
    ensures Owned(Perform(sys, a))
  {
    StepCreates(sys, a);
    forall x: nat ensures Places(Perform(sys, a), x) == if x in Perform(sys, a).created then 1 else 0 {
      StepKeepsPlaces(sys, a, x);
    }
  }

  // ---- All runs ----

  /** Exclusive ownership, in every run of any number of schedulers. */
  lemma {:induction false} OwnershipInEveryRun(n: nat, acts: seq<Action>)
    ensures SchedsInv(After(n, acts)) && Owned(After(n, acts)) && |After(n, acts).scheds| == n
    decreases |acts|
  {
    if acts == [] {
      NewSystemIsOwned(n);
    } else {
      var before, last := acts[..|acts| - 1], acts[|acts| - 1];
      OwnershipInEveryRun(n, before);
      if Enabled(After(n, before), last) {
        StepKeepsInv(After(n, before), last);
        StepKeepsOwnership(After(n, before), last);
      }
    }
  }

  lemma NewSystemIsOwned(n: nat)
    ensures SchedsInv(Init(n)) && Owned(Init(n))
  {
    forall x: nat ensures Places(Init(n), x) == 0 { NewSystemHoldsNothing(n, x); }
  }

  lemma {:induction false} NewSystemHoldsNothing(n: nat, x: nat)
    ensures SchedsHold(Init(n).scheds, x) == 0
  {
    if n == 0 {
    } else {
      assert Init(n).scheds[1..] == Init(n - 1).scheds;
      NewSystemHoldsNothing(n - 1, x);
    }
  }

  lemma {:induction false} PartOfSchedules(ss: seq<Sched>, i: nat, h: nat)
    requires i < |ss|
    ensures SchedsHold(ss, h) >= SchedHolds(ss[i], h)
    decreases i
  {
    if i == 0 {
    } else {
      PartOfSchedules(ss[1..], i - 1, h);
    }
  }

  lemma {:induction false} TwoPartsOfSchedules(ss: seq<Sched>, i: nat, j: nat, h: nat)
    requires i < j < |ss|
    ensures SchedsHold(ss, h) >= SchedHolds(ss[i], h) + SchedHolds(ss[j], h)
    decreases i
  {
    if i == 0 {
      PartOfSchedules(ss[1..], j - 1, h);
    } else {
      TwoPartsOfSchedules(ss[1..], i - 1, j - 1, h);
    }
  }

  /** In no run do two run threads have the same coroutine, running or queued. */
  lemma NeverRunByTwo(n: nat, acts: seq<Action>, i: nat, j: nat, h: nat)
    requires i < n && j < n && i != j
    ensures var sys := After(n, acts);
            |sys.scheds| == n && (SchedHolds(sys.scheds[i], h) == 0 || SchedHolds(sys.scheds[j], h) == 0)
  {
    OwnershipInEveryRun(n, acts);
    var sys := After(n, acts);
    TwoPartsOfSchedules(sys.scheds, if i < j then i else j, if i < j then j else i, h);
    assert Places(sys, h) <= 1;
  }

  lemma {:induction false} CountPositive(s: seq<nat>, h: nat)
    ensures Count(s, h) > 0 <==> h in s
  {
    if s == [] {
    } else {
      CountPositive(s[1..], h);
    }
  }

  /** No scheduler queues a coroutine that it is running or about to destroy, in its main
      queue or its local one, and none that it queues stands there twice. */
  lemma RunningIsNotQueued(n: nat, acts: seq<Action>, i: nat, h: nat)
    requires i < n
    ensures |After(n, acts).scheds| == n
    ensures var s := After(n, acts).scheds[i];
            && (s.co == Owns(h) ==> h !in s.local && h !in s.queue)
            && Count(s.queue, h) + Count(s.local, h) <= 1
  {
    OwnershipInEveryRun(n, acts);
    var sys := After(n, acts);
    PartOfSchedules(sys.scheds, i, h);
    assert Places(sys, h) <= 1;
    CountPositive(sys.scheds[i].local, h);
    CountPositive(sys.scheds[i].queue, h);
    assert InSlot(Owns(h)) == [h] && Count([h], h) == 1;
  }

  // ---- Why a handle leaves the system ----

  /** Only coroutines that ran to their end are destroyed; the slot of an idle batch loop
      holds an ended one. */
  ghost predicate EndedInv(sys: System) {
    && (forall h | h in sys.destroyed :: h in sys.ended)
    && (forall i | 0 <= i < |sys.scheds| && sys.scheds[i].co.Owns? && !sys.scheds[i].running ::
          sys.scheds[i].co.h in sys.ended)
  }

  // The slot and whether it runs change only by the batch loop's own steps.
  predicate SameSlot(s: Sched, t: Sched) {
    s.co == t.co && s.running == t.running
  }

  lemma OwnStepSlot(s: Sched, a: Action)
    requires Scheduler.Inv(s) && OwnEnabled(s, a)
    ensures var t := OwnStep(s, a);
            || SameSlot(s, t) || t.co.Empty? || t.running
            || (a.Completed? && t.co == s.co)
  {
  }

  lemma StepKeepsEnded(sys: System, a: Action)
    requires Enabled(sys, a) && SchedsInv(sys) && EndedInv(sys)
    ensures EndedInv(Perform(sys, a))
  {
    if !a.Spawn? && !a.WakeAwaitable? && !a.Land? {
      OwnStepSlot(sys.scheds[a.i], a);
    }
  }

  // Whoever refused a handle is halted.
  ghost predicate RejectionInv(sys: System) {
    forall k | 0 <= k < |sys.rejected| ::
      sys.rejected[k].to < |sys.scheds| && sys.scheds[sys.rejected[k].to].status.Halted?
  }

  lemma StepKeepsStatus(s: Sched, a: Action)
    requires OwnEnabled(s, a)
    ensures s.status.Halted? ==> OwnStep(s, a).status.Halted?
  {
  }

  /** In every run a handle is destroyed only after its coroutine ended, and refused only by
      a scheduler that is halted. */
  lemma {:induction false} LossesAreAccountedFor(n: nat, acts: seq<Action>)
    ensures EndedInv(After(n, acts)) && RejectionInv(After(n, acts))
    decreases |acts|
  {
    if acts == [] {
    } else {
      var before, last := acts[..|acts| - 1], acts[|acts| - 1];
      LossesAreAccountedFor(n, before);
      OwnershipInEveryRun(n, before);
      var sys := After(n, before);
      if Enabled(sys, last) {
        StepKeepsEnded(sys, last);
        StepKeepsRejection(sys, last);
      }
    }
  }

  lemma StepKeepsRejection(sys: System, a: Action)
    requires Enabled(sys, a) && RejectionInv(sys)
    ensures RejectionInv(Perform(sys, a))
  {
    forall i: nat | i < |sys.scheds| && sys.scheds[i].status.Halted?
      ensures i < |Perform(sys, a).scheds| && Perform(sys, a).scheds[i].status.Halted?
    {
      HaltedStays(sys, a, i);
    }
  }

  /** No action brings a halted scheduler back. */
  lemma HaltedStays(sys: System, a: Action, i: nat)
    requires Enabled(sys, a) && i < |sys.scheds| && sys.scheds[i].status.Halted?
    ensures i < |Perform(sys, a).scheds| && Perform(sys, a).scheds[i].status.Halted?
  {
    OneSched(sys, a, i);
    if OwnAction(a, i) {
      StepKeepsStatus(sys.scheds[i], a);
    }
  }
}
