/** What the actions of a system of schedulers achieve, in every run: handles arrive where they
    were sent, awaiters return to their scheduler, coroutines that ended are destroyed, and
    suspend, resume and halt take effect. */
module SchedulerLaws {
  import opened Scheduler
  import opened SchedulerSystem
  import opened SchedulerRuns

  // ---- Delivery ----

  // Action number `k` is the schedule_() of a handle `h` on its way, and of which flight.
  predicate LandsHandle(n: nat, acts: seq<Action>, k: nat, h: nat) {
    && k < |acts| && acts[k].Land? && Enabled(After(n, acts[..k]), acts[k])
    && After(n, acts[..k]).flights[acts[k].f].h == h
  }

  function LandingFlight(n: nat, acts: seq<Action>, k: nat, h: nat): Flight
    requires LandsHandle(n, acts, k, h)
  {
    After(n, acts[..k]).flights[acts[k].f]
  }

  // Flight `f` has brought its handle to the back of the queue of scheduler `f.to`, of the
  // local one if that is where it started, or was refused by a halted scheduler; nobody
  // else has the handle.
  ghost predicate Arrived(before: System, after: System, f: Flight) {
    && f.to < |before.scheds| == |after.scheds|
    && (forall j | 0 <= j < |after.scheds| && j != f.to :: SchedHolds(after.scheds[j], f.h) == 0)
    && var s, t := before.scheds[f.to], after.scheds[f.to];
       if f.actor == On(f.to) then t.local == s.local + [f.h] && t.queue == s.queue
       else if s.status.Halted? then after.rejected == before.rejected + [f] && SchedHolds(t, f.h) == 0
       else t.queue == s.queue + [f.h] && t.local == s.local && (t.pc.OnCoroutinesCv? ==> t.awake)
  }

  lemma {:induction false} FlightHeld(fs: seq<Flight>, k: nat)
    requires k < |fs|
    ensures FlightsHold(fs, fs[k].h) >= 1
    decreases k
  {
    if k == 0 {
    } else {
      FlightHeld(fs[1..], k - 1);
    }
  }

  lemma {:induction false} TwoFlightsHeld(fs: seq<Flight>, k: nat, l: nat)
    requires k < l < |fs| && fs[k].h == fs[l].h
    ensures FlightsHold(fs, fs[k].h) >= 2
    decreases k
  {
    if k == 0 {
      FlightHeld(fs[1..], l - 1);
    } else {
      TwoFlightsHeld(fs[1..], k - 1, l - 1);
    }
  }

  // No handle is on its way twice.
  lemma OneFlight(n: nat, acts: seq<Action>, f: Flight, g: Flight)
    requires f in After(n, acts).flights && g in After(n, acts).flights && f.h == g.h
    ensures f == g
  {
    OwnershipInEveryRun(n, acts);
    var sys := After(n, acts);
    var k, l :| 0 <= k < |sys.flights| && sys.flights[k] == f && 0 <= l < |sys.flights| && sys.flights[l] == g;
    assert Places(sys, f.h) <= 1;
    if k < l {
      TwoFlightsHeld(sys.flights, k, l);
    } else if l < k {
      TwoFlightsHeld(sys.flights, l, k);
    }
  }

  lemma HeldOnceOnly(n: nat, acts: seq<Action>, i: nat, j: nat, h: nat)
    requires i < n && j < n && i != j && SchedHolds(At(n, acts, i), h) > 0
    ensures SchedHolds(At(n, acts, j), h) == 0
  {
    NeverRunByTwo(n, acts, i, j, h);
  }

  lemma RefusedIsNowhere(n: nat, acts: seq<Action>, k: nat, j: nat)
    requires j < n && k < |After(n, acts).rejected|
    ensures SchedHolds(At(n, acts, j), After(n, acts).rejected[k].h) == 0
  {
    OwnershipInEveryRun(n, acts);
    var sys := After(n, acts);
    var h := sys.rejected[k].h;
    FlightHeld(sys.rejected, k);
    PartOfSchedules(sys.scheds, j, h);
    assert Places(sys, h) <= 1;
  }

  lemma AppendedHeld(s: seq<nat>, h: nat)
    ensures Count(s + [h], h) >= 1
  {
    CountAppend(s, [h], h);
  }

  lemma LandingPlaces(sys: System, a: Action, f: Flight)
    requires Enabled(sys, a) && SchedsInv(sys) && a.Land? && sys.flights[a.f] == f
    ensures f.to < |sys.scheds| == |Perform(sys, a).scheds|
    ensures var s, t := sys.scheds[f.to], Perform(sys, a).scheds[f.to];
            if f.actor == On(f.to) then t.local == s.local + [f.h] && t.queue == s.queue
            else if s.status.Halted? then Perform(sys, a).rejected == sys.rejected + [f]
            else t.queue == s.queue + [f.h] && t.local == s.local && (t.pc.OnCoroutinesCv? ==> t.awake)
  {
    OneSched(sys, a, f.to);
  }

  /** Every landing is an arrival: where the flight says, and nowhere else. */
  lemma LandingArrives(n: nat, acts: seq<Action>, k: nat, h: nat)
    requires LandsHandle(n, acts, k, h)
    ensures Arrived(After(n, acts[..k]), After(n, acts[..k + 1]), LandingFlight(n, acts, k, h))
  {
    var f := LandingFlight(n, acts, k, h);
    OwnershipInEveryRun(n, acts[..k]);
    OwnershipInEveryRun(n, acts[..k + 1]);
    AfterNext(n, acts, k);
    var before, after := After(n, acts[..k]), After(n, acts[..k + 1]);
    LandingPlaces(before, acts[k], f);
    forall j: nat | j < n && (j != f.to || (f.actor != On(f.to) && before.scheds[f.to].status.Halted?))
      ensures SchedHolds(after.scheds[j], h) == 0
    {
      if f.actor != On(f.to) && before.scheds[f.to].status.Halted? {
        assert after.rejected[|before.rejected|] == f;
        RefusedIsNowhere(n, acts[..k + 1], |before.rejected|, j);
      } else {
        AppendedHeld(before.scheds[f.to].local, h);
        AppendedHeld(before.scheds[f.to].queue, h);
        HeldOnceOnly(n, acts[..k + 1], f.to, j, h);
      }
    }
  }

  lemma FlightStays(sys: System, a: Action, f: Flight)
    requires f in sys.flights && !(a.Land? && a.f < |sys.flights| && sys.flights[a.f].h == f.h)
    ensures f in Step(sys, a).flights
  {
    if Enabled(sys, a) && a.Land? {
      var k :| 0 <= k < |sys.flights| && sys.flights[k] == f;
      assert Without(sys.flights, a.f)[if k < a.f then k else k - 1] == f;
    }
  }

  lemma StillOnItsWay(n: nat, acts: seq<Action>, k: nat, f: Flight)
    requires k < |acts| && f in After(n, acts[..k]).flights && !LandsHandle(n, acts, k, f.h)
    ensures f in After(n, acts[..k + 1]).flights
  {
    AfterNext(n, acts, k);
    if Enabled(After(n, acts[..k]), acts[k]) {
      FlightStays(After(n, acts[..k]), acts[k], f);
    }
  }

  lemma {:induction false} OnItsWay(n: nat, acts: seq<Action>, p: nat, m: nat, f: Flight)
    requires p <= m <= |acts| && f in After(n, acts[..p]).flights
    requires forall k | p <= k < m :: !LandsHandle(n, acts, k, f.h)
    ensures f in After(n, acts[..m]).flights
    decreases m - p
  {
    if p == m {
    } else {
      OnItsWay(n, acts, p, m - 1, f);
      StillOnItsWay(n, acts, m - 1, f);
    }
  }

  /** What is on its way arrives: the next landing of its handle is its own. */
  lemma FlightArrives(n: nat, acts: seq<Action>, p: nat, k: nat, f: Flight)
    requires p <= k < |acts| && f in After(n, acts[..p]).flights && LandsHandle(n, acts, k, f.h)
    requires forall m | p <= m < k :: !LandsHandle(n, acts, m, f.h)
    ensures Arrived(After(n, acts[..k]), After(n, acts[..k + 1]), f)
  {
    OnItsWay(n, acts, p, k, f);
    OneFlight(n, acts[..k], f, LandingFlight(n, acts, k, f.h));
    LandingArrives(n, acts, k, f.h);
  }

  /** A migrating coroutine arrives at the scheduler it migrates to. */
  lemma MigrantArrives(n: nat, acts: seq<Action>, p: nat, k: nat, i: nat, to: nat, h: nat)
    requires i < n && Performed(n, acts, p, Migrate(i, to)) && At(n, acts[..p], i).co == Owns(h)
    requires p < k && LandsHandle(n, acts, k, h) && forall m | p < m < k :: !LandsHandle(n, acts, m, h)
    ensures Arrived(After(n, acts[..k]), After(n, acts[..k + 1]), Flight(On(i), to, h))
  {
    AfterNext(n, acts, p);
    FlightArrives(n, acts, p + 1, k, Flight(On(i), to, h));
  }

  /** A new coroutine arrives at the scheduler it was scheduled on. */
  lemma SpawnedArrives(n: nat, acts: seq<Action>, p: nat, k: nat, actor: Actor, to: nat, h: nat)
    requires Performed(n, acts, p, Spawn(actor, to, h))
    requires p < k && LandsHandle(n, acts, k, h) && forall m | p < m < k :: !LandsHandle(n, acts, m, h)
    ensures Arrived(After(n, acts[..k]), After(n, acts[..k + 1]), Flight(actor, to, h))
  {
    AfterNext(n, acts, p);
    FlightArrives(n, acts, p + 1, k, Flight(actor, to, h));
  }

  // ---- Awaiting ----

  // Action number `k` is the resume() of an awaitable that holds `h`, by `actor`.
  predicate Wakes(n: nat, acts: seq<Action>, k: nat, actor: Actor, h: nat) {
    && k < |acts| && acts[k].WakeAwaitable? && acts[k].actor == actor && Enabled(After(n, acts[..k]), acts[k])
    && After(n, acts[..k]).awaitables[acts[k].k].handle == Owns(h)
  }

  lemma {:induction false} AwaitableHeld(ks: seq<Awaitable>, k: nat, h: nat)
    requires k < |ks| && ks[k].handle == Owns(h)
    ensures AwaitablesHold(ks, h) >= 1
    decreases k
  {
    assert InSlot(Owns(h)) == [h];
    if k == 0 {
    } else {
      AwaitableHeld(ks[1..], k - 1, h);
    }
  }

  lemma {:induction false} TwoAwaitablesHeld(ks: seq<Awaitable>, k: nat, l: nat, h: nat)
    requires k < l < |ks| && ks[k].handle == Owns(h) && ks[l].handle == Owns(h)
    ensures AwaitablesHold(ks, h) >= 2
    decreases k
  {
    assert InSlot(Owns(h)) == [h];
    if k == 0 {
      AwaitableHeld(ks[1..], l - 1, h);
    } else {
      TwoAwaitablesHeld(ks[1..], k - 1, l - 1, h);
    }
  }

  // No two awaitables hold the same handle.
  lemma OneAwaitable(n: nat, acts: seq<Action>, k: nat, l: nat, h: nat)
    requires k < |After(n, acts).awaitables| && l < |After(n, acts).awaitables|
    requires After(n, acts).awaitables[k].handle == Owns(h) && After(n, acts).awaitables[l].handle == Owns(h)
    ensures k == l
  {
    OwnershipInEveryRun(n, acts);
    var sys := After(n, acts);
    assert Places(sys, h) <= 1;
    if k < l {
      TwoAwaitablesHeld(sys.awaitables, k, l, h);
    } else if l < k {
      TwoAwaitablesHeld(sys.awaitables, l, k, h);
    }
  }

  lemma AwaitableStays(sys: System, a: Action, k: nat)
    requires k < |sys.awaitables| && !(a.WakeAwaitable? && a.k == k)
    ensures k < |Step(sys, a).awaitables| && Step(sys, a).awaitables[k] == sys.awaitables[k]
  {
  }

  lemma {:induction false} StaysHeld(n: nat, acts: seq<Action>, p: nat, m: nat, k: nat, h: nat)
    requires p <= m <= |acts| && k < |After(n, acts[..p]).awaitables|
    requires After(n, acts[..p]).awaitables[k].handle == Owns(h)
    requires forall l, actor | p <= l < m :: !Wakes(n, acts, l, actor, h)
    ensures k < |After(n, acts[..m]).awaitables|
    ensures After(n, acts[..m]).awaitables[k] == After(n, acts[..p]).awaitables[k]
    decreases m - p
  {
    if p == m {
    } else {
      StaysHeld(n, acts, p, m - 1, k, h);
      AfterNext(n, acts, m - 1);
      var sys, a := After(n, acts[..m - 1]), acts[m - 1];
      if a.WakeAwaitable? && a.k == k {
        assert !Wakes(n, acts, m - 1, a.actor, h);
      } else {
        AwaitableStays(sys, a, k);
      }
    }
  }

  /** A coroutine that awaited on scheduler `i` sets out for `i` when it is resumed, whoever
      resumes it. */
  lemma AwaiterSetsOut(n: nat, acts: seq<Action>, p: nat, k: nat, i: nat, actor: Actor, h: nat)
    requires i < n && Performed(n, acts, p, Await(i)) && At(n, acts[..p], i).co == Owns(h)
    requires p < k && Wakes(n, acts, k, actor, h) && forall m, b | p < m < k :: !Wakes(n, acts, m, b, h)
    ensures Flight(actor, i, h) in After(n, acts[..k + 1]).flights
  {
    AfterNext(n, acts, p);
    var slot := |After(n, acts[..p]).awaitables|;
    assert After(n, acts[..p + 1]).awaitables[slot] == Awaitable(Owns(h), i);
    StaysHeld(n, acts, p + 1, k, slot, h);
    OneAwaitable(n, acts[..k], slot, acts[k].k, h);
    AfterNext(n, acts, k);
  }

  /** So it arrives back at `i`. */
  lemma AwaiterReturns(n: nat, acts: seq<Action>, p: nat, k: nat, m: nat, i: nat, actor: Actor, h: nat)
    requires i < n && Performed(n, acts, p, Await(i)) && At(n, acts[..p], i).co == Owns(h)
    requires p < k && Wakes(n, acts, k, actor, h) && forall l, b | p < l < k :: !Wakes(n, acts, l, b, h)
    requires k < m && LandsHandle(n, acts, m, h) && forall l | k < l < m :: !LandsHandle(n, acts, l, h)
    ensures Arrived(After(n, acts[..m]), After(n, acts[..m + 1]), Flight(actor, i, h))
  {
    AwaiterSetsOut(n, acts, p, k, i, actor, h);
    FlightArrives(n, acts, k + 1, m, Flight(actor, i, h));
  }

  // ---- The outcomes of a turn ----

  /** A coroutine that yields is last in its scheduler's local queue. */
  lemma YieldGoesToTheBack(n: nat, acts: seq<Action>, p: nat, i: nat, h: nat)
    requires i < n && Performed(n, acts, p, Yielded(i)) && At(n, acts[..p], i).co == Owns(h)
    ensures At(n, acts[..p + 1], i).local == At(n, acts[..p], i).local + [h] && At(n, acts[..p + 1], i).co == Empty
  {
    AfterNext(n, acts, p);
    OneSched(After(n, acts[..p]), Yielded(i), i);
  }

  // The slot of `i` holds `h`, whose coroutine has ended.
  predicate Over(s: Sched, h: nat) {
    s.pc.InBatch? && !s.running && s.co == Owns(h)
  }

  lemma OverStays(sys: System, a: Action, i: nat, h: nat)
    requires Enabled(sys, a) && i < |sys.scheds| && Over(sys.scheds[i], h)
    ensures i < |Perform(sys, a).scheds|
    ensures if a == Next(i) || a == FinishBatch(i) then h in Perform(sys, a).destroyed
            else Over(Perform(sys, a).scheds[i], h)
  {
    OneSched(sys, a, i);
    if a == Next(i) || a == FinishBatch(i) {
      assert (sys.destroyed + [h])[|sys.destroyed|] == h;
    }
  }

  lemma StillOver(n: nat, acts: seq<Action>, k: nat, i: nat, h: nat)
    requires i < n && k < |acts| && Over(At(n, acts[..k], i), h)
    requires !Performed(n, acts, k, Next(i)) && !Performed(n, acts, k, FinishBatch(i))
    ensures Over(At(n, acts[..k + 1], i), h)
  {
    AfterNext(n, acts, k);
    OwnershipInEveryRun(n, acts[..k]);
    if Enabled(After(n, acts[..k]), acts[k]) {
      OverStays(After(n, acts[..k]), acts[k], i, h);
    }
  }

  lemma {:induction false} StaysOver(n: nat, acts: seq<Action>, p: nat, m: nat, i: nat, h: nat)
    requires i < n && p <= m <= |acts| && Over(At(n, acts[..p], i), h)
    requires forall k | p <= k < m :: !Performed(n, acts, k, Next(i)) && !Performed(n, acts, k, FinishBatch(i))
    ensures Over(At(n, acts[..m], i), h)
    decreases m - p
  {
    if p == m {
    } else {
      StaysOver(n, acts, p, m - 1, i, h);
      StillOver(n, acts, m - 1, i, h);
    }
  }

  /** The handle of a coroutine that ended is destroyed when its scheduler takes the next handle
      or ends the batch. */
  lemma EndedIsDestroyed(n: nat, acts: seq<Action>, p: nat, k: nat, i: nat, h: nat)
    requires i < n && Performed(n, acts, p, Completed(i)) && At(n, acts[..p], i).co == Owns(h)
    requires p < k && (Performed(n, acts, k, Next(i)) || Performed(n, acts, k, FinishBatch(i)))
    requires forall m | p < m < k :: !Performed(n, acts, m, Next(i)) && !Performed(n, acts, m, FinishBatch(i))
    ensures h in After(n, acts[..k + 1]).destroyed
  {
    AfterNext(n, acts, p);
    OneSched(After(n, acts[..p]), Completed(i), i);
    StaysOver(n, acts, p + 1, k, i, h);
    AfterNext(n, acts, k);
    OwnershipInEveryRun(n, acts[..k]);
    OverStays(After(n, acts[..k]), acts[k], i, h);
  }

  // ---- A batch comes to its end ----

  // How many turns of its batch lie ahead of a run thread at most.
  function TurnRank(s: Sched): nat {
    if !s.pc.InBatch? then 0
    else 3 * s.count + if !s.running then 0 else if s.co.Owns? then 2 else 1
  }

  // A turn of scheduler `i` within its batch.
  predicate IsTurn(a: Action, i: nat) {
    InTurn(a) && a.i == i && !a.FinishBatch?
  }

  // Turns of `i` use up rank; what others do meanwhile gives none back.
  lemma TurnUsesRank(sys: System, a: Action, i: nat)
    requires Enabled(sys, a) && SchedsInv(sys) && i < |sys.scheds| && sys.scheds[i].pc.InBatch? && a != FinishBatch(i)
    ensures i < |Perform(sys, a).scheds| && Perform(sys, a).scheds[i].pc.InBatch?
    ensures var s, t := sys.scheds[i], Perform(sys, a).scheds[i];
            if IsTurn(a, i) then TurnRank(t) < TurnRank(s) else TurnRank(t) == TurnRank(s)
  {
    OneSched(sys, a, i);
  }

  // How many of the actions from number `p` on are turns of `i`.
  function Turns(n: nat, acts: seq<Action>, p: nat, i: nat): nat {
    if |acts| <= p then 0
    else
      var front, last := acts[..|acts| - 1], acts[|acts| - 1];
      Turns(n, front, p, i) + if Enabled(After(n, front), last) && IsTurn(last, i) then 1 else 0
  }

  lemma TurnThen(n: nat, before: seq<Action>, a: Action, p: nat, i: nat)
    requires i < n && p <= |before| && At(n, before, i).pc.InBatch?
    requires !Performed(n, before + [a], |before|, FinishBatch(i))
    ensures At(n, before + [a], i).pc.InBatch?
    ensures Turns(n, before + [a], p, i) + TurnRank(At(n, before + [a], i))
         <= Turns(n, before, p, i) + TurnRank(At(n, before, i))
  {
    assert (before + [a])[..|before|] == before;
    OwnershipInEveryRun(n, before);
    if Enabled(After(n, before), a) {
      TurnUsesRank(After(n, before), a, i);
    }
  }

  /** A batch of c handles ends within 3 * c turns and two for the coroutine that runs: until it
      ends its run thread takes no more than that, whatever is scheduled meanwhile. */
  lemma {:induction false} BatchIsBounded(n: nat, acts: seq<Action>, p: nat, i: nat)
    requires i < n && p <= |acts| && At(n, acts[..p], i).pc.InBatch?
    requires forall k | p <= k < |acts| :: !Performed(n, acts, k, FinishBatch(i))
    ensures At(n, acts, i).pc.InBatch?
    ensures Turns(n, acts, p, i) + TurnRank(At(n, acts, i)) <= TurnRank(At(n, acts[..p], i))
    decreases |acts|
  {
    if p == |acts| {
      assert acts[..p] == acts;
    } else {
      var before, last := acts[..|acts| - 1], acts[|acts| - 1];
      assert before[..p] == acts[..p] && before + [last] == acts;
      forall k | p <= k < |before| ensures !Performed(n, before, k, FinishBatch(i)) {
        assert before[..k] == acts[..k] && !Performed(n, acts, k, FinishBatch(i));
      }
      BatchIsBounded(n, before, p, i);
      TurnThen(n, before, last, p, i);
    }
  }

  /** And a run thread in its batch can always go on: deliver the handle it took, take its next
      turn, or end the batch. */
  lemma BatchCanGoOn(n: nat, acts: seq<Action>, i: nat)
    requires i < n && At(n, acts, i).pc.InBatch?
    ensures exists a :: Enabled(After(n, acts), a) && GoesOn(After(n, acts), a, i)
  {
    OwnershipInEveryRun(n, acts);
    var sys := After(n, acts);
    var s := sys.scheds[i];
    if Delivering(sys, On(i)) {
      var k :| 0 <= k < |sys.flights| && sys.flights[k].actor == On(i);
      assert Enabled(sys, Land(k)) && GoesOn(sys, Land(k), i);
    } else {
      var a := if s.running then (if s.co.Owns? then Completed(i) else Return(i))
               else if s.count == 0 then FinishBatch(i) else Next(i);
      assert Enabled(sys, a) && GoesOn(sys, a, i);
    }
  }

  // A turn of `i`, the end of its batch, or the delivery of a handle its run thread took.
  predicate GoesOn(sys: System, a: Action, i: nat) {
    if a.Land? then a.f < |sys.flights| && sys.flights[a.f].actor == On(i) else InTurn(a) && a.i == i
  }

  // ---- Suspend, resume, halt ----

  // The work of a scheduler, and where its run thread is.
  predicate SameWork(s: Sched, t: Sched) {
    && s.queue == t.queue && s.local == t.local && s.co == t.co && s.running == t.running
    && s.count == t.count && s.pc == t.pc && s.log == t.log
  }

  predicate ParkedAnywhere(s: Sched) {
    s.pc.OnCoroutinesCv? || s.pc.OnResumeCv?
  }

  /** After resume a scheduler is not suspended.  If it was, it executes, and its run thread, if
      parked on either condition, has a notification and may go on. */
  lemma ResumeTakesEffect(n: nat, acts: seq<Action>, p: nat, i: nat)
    requires i < n && Performed(n, acts, p, ResumeOp(i))
    ensures var s, t := At(n, acts[..p], i), At(n, acts[..p + 1], i);
            && !t.status.Paused? && SameWork(s, t)
            && (s.status.Paused? ==> t.status.Executing? && (ParkedAnywhere(t) ==> CanWake(t)))
            && (!s.status.Paused? ==> t == s)
  {
    AfterNext(n, acts, p);
    OwnershipInEveryRun(n, acts[..p]);
    OneSched(After(n, acts[..p]), ResumeOp(i), i);
  }

  /** After suspend a scheduler is suspended unless it was halted, and its run thread does not
      wait for work without a notification. */
  lemma SuspendTakesEffect(n: nat, acts: seq<Action>, p: nat, i: nat)
    requires i < n && Performed(n, acts, p, SuspendOp(i))
    ensures var s, t := At(n, acts[..p], i), At(n, acts[..p + 1], i);
            && t.status == (if s.status.Halted? then Halted else Paused) && SameWork(s, t)
            && (t.pc.OnCoroutinesCv? ==> CanWake(t))
  {
    AfterNext(n, acts, p);
    OwnershipInEveryRun(n, acts[..p]);
    OneSched(After(n, acts[..p]), SuspendOp(i), i);
  }

  /** After halt a scheduler is halted, and its run thread, if parked, has a notification. */
  lemma HaltTakesEffect(n: nat, acts: seq<Action>, p: nat, i: nat)
    requires i < n && Performed(n, acts, p, HaltOp(i))
    ensures var s, t := At(n, acts[..p], i), At(n, acts[..p + 1], i);
            && t.status.Halted? && SameWork(s, t) && (ParkedAnywhere(t) ==> CanWake(t))
  {
    AfterNext(n, acts, p);
    OwnershipInEveryRun(n, acts[..p]);
    OneSched(After(n, acts[..p]), HaltOp(i), i);
  }

  /** A run thread that begins, or goes on after a wait, takes the whole queue up as its batch
      while executing; with nothing queued, or suspended, it waits with its flag up, and when
      halted it exits. */
  lemma StartTakesTheQueue(n: nat, acts: seq<Action>, p: nat, i: nat)
    requires i < n && Performed(n, acts, p, Start(i))
    ensures var s, t := At(n, acts[..p], i), At(n, acts[..p + 1], i);
            match s.status
            case Executing =>
              if s.queue == [] then t.pc.OnCoroutinesCv? && t.waitC
              else t.pc.InBatch? && t.log.batch == s.queue == t.local && t.count == |s.queue| && t.queue == []
            case Paused => t.pc.OnResumeCv? && t.waitR && t.queue == s.queue
            case Halted => t.pc.Exited? && t.queue == s.queue
  {
    AfterNext(n, acts, p);
    OwnershipInEveryRun(n, acts[..p]);
    OneSched(After(n, acts[..p]), Start(i), i);
  }

  // Neither executing nor in the middle of a batch.
  predicate AtRest(s: Sched) {
    !s.status.Executing? && !s.pc.InBatch?
  }

  lemma RestStays(sys: System, a: Action, i: nat)
    requires Enabled(sys, a) && SchedsInv(sys) && i < |sys.scheds| && AtRest(sys.scheds[i]) && a != ResumeOp(i)
    ensures i < |Perform(sys, a).scheds| && AtRest(Perform(sys, a).scheds[i]) && a != Next(i)
    ensures sys.scheds[i].queue <= Perform(sys, a).scheds[i].queue
  {
    OneSched(sys, a, i);
  }

  lemma StillAtRest(n: nat, acts: seq<Action>, k: nat, i: nat)
    requires i < n && k < |acts| && AtRest(At(n, acts[..k], i)) && !Performed(n, acts, k, ResumeOp(i))
    ensures AtRest(At(n, acts[..k + 1], i)) && At(n, acts[..k], i).queue <= At(n, acts[..k + 1], i).queue
    ensures !Performed(n, acts, k, Next(i))
  {
    AfterNext(n, acts, k);
    OwnershipInEveryRun(n, acts[..k]);
    if Enabled(After(n, acts[..k]), acts[k]) {
      RestStays(After(n, acts[..k]), acts[k], i);
    }
  }

  /** A suspended scheduler that has ended its batch resumes no coroutine and keeps its queue
      until it is resumed. */
  lemma {:induction false} SuspendedRunsNothing(n: nat, acts: seq<Action>, p: nat, m: nat, i: nat)
    requires i < n && p <= m <= |acts| && AtRest(At(n, acts[..p], i))
    requires forall k | p <= k < m :: !Performed(n, acts, k, ResumeOp(i))
    ensures AtRest(At(n, acts[..m], i)) && At(n, acts[..p], i).queue <= At(n, acts[..m], i).queue
    ensures forall k | p <= k < m :: !Performed(n, acts, k, Next(i))
    decreases m - p
  {
    if p == m {
    } else {
      SuspendedRunsNothing(n, acts, p, m - 1, i);
      StillAtRest(n, acts, m - 1, i);
    }
  }
}
