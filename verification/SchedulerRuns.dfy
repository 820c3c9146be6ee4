/** What the runs of a system of schedulers keep beyond ownership: every queued handle is
    resumed within two batches, no run thread sleeps through work, and what a halted
    scheduler leaves behind is exactly known. */
module SchedulerRuns {
  import opened Scheduler
  import opened SchedulerSystem

  // The scheduler at index `i` after `acts`.
  function At(n: nat, acts: seq<Action>, i: nat): Sched
    requires i < n
  {
    OwnershipInEveryRun(n, acts);
    After(n, acts).scheds[i]
  }

  // Action number `k` is `a`, and could be taken.
  predicate Performed(n: nat, acts: seq<Action>, k: nat, a: Action) {
    k < |acts| && acts[k] == a && Enabled(After(n, acts[..k]), a)
  }

  // Action number `k` is the batch loop of `i` taking handle `h` to resume it.
  predicate Takes(n: nat, acts: seq<Action>, k: nat, i: nat, h: nat)
    requires i < n && k <= |acts|
  {
    Performed(n, acts, k, Next(i)) && At(n, acts[..k], i).local != [] && At(n, acts[..k], i).local[0] == h
  }

  lemma AfterNext(n: nat, acts: seq<Action>, k: nat)
    requires k < |acts|
    ensures After(n, acts[..k + 1]) == Step(After(n, acts[..k]), acts[k])
  {
    assert acts[..k + 1][..k] == acts[..k];
  }

  // ---- Fairness ----

  predicate Waiting(s: Sched, h: nat) {
    h in s.queue || h in s.local
  }

  // In the current batch, or in the queue that the next batch will be.
  predicate Due(s: Sched, h: nat) {
    if s.pc.InBatch? then s.count <= |s.local| && h in s.local[..s.count] else h in s.queue
  }

  lemma InAppended(a: seq<nat>, b: seq<nat>, h: nat)
    ensures h in a + b <==> h in a || h in b
  {
  }

  lemma OwnStepKeepsDue(s: Sched, a: Action, h: nat)
    requires Scheduler.Inv(s) && OwnEnabled(s, a) && Due(s, h)
    requires a.Next? ==> s.local[0] != h
    ensures Due(OwnStep(s, a), h) && !a.FinishBatch?
  {
    if a.Next? {
      assert s.local[..s.count] == [s.local[0]] + s.local[1..][..s.count - 1];
    }
    if a.Yielded? {
      assert (s.local + [s.co.h])[..s.count] == s.local[..s.count];
    }
    if a.Start? && s.status.Executing? {
      assert s.queue[..|s.queue|] == s.queue;
    }
  }

  lemma OwnStepKeepsWaiting(s: Sched, a: Action, h: nat)
    requires Scheduler.Inv(s) && OwnEnabled(s, a) && Waiting(s, h)
    requires a.Next? ==> s.local[0] != h
    ensures Waiting(OwnStep(s, a), h)
    ensures a.FinishBatch? ==> Due(OwnStep(s, a), h)
  {
    if a.FinishBatch? {
      InAppended(s.queue, s.local, h);
      var queue := s.queue + s.local;
      assert queue[..|queue|] == queue;
    }
    if a.Next? {
      InAppended([s.local[0]], s.local[1..], h);
      assert s.local == [s.local[0]] + s.local[1..];
    }
  }

  // A handle that is waited for stays where it is until it is taken, and comes up for the
  // next batch when a batch ends.
  lemma StepKeepsWaiting(sys: System, a: Action, i: nat, h: nat)
    requires Enabled(sys, a) && SchedsInv(sys) && i < |sys.scheds|
    requires a == Next(i) ==> sys.scheds[i].local[0] != h
    ensures i < |Perform(sys, a).scheds|
    ensures Waiting(sys.scheds[i], h) ==> Waiting(Perform(sys, a).scheds[i], h)
    ensures Waiting(sys.scheds[i], h) && a == FinishBatch(i) ==> Due(Perform(sys, a).scheds[i], h)
    ensures Due(sys.scheds[i], h) ==> Due(Perform(sys, a).scheds[i], h) && a != FinishBatch(i)
  {
    OneSched(sys, a, i);
    var s := sys.scheds[i];
    if OwnAction(a, i) {
      if Waiting(s, h) { OwnStepKeepsWaiting(s, a, h); }
      if Due(s, h) { OwnStepKeepsDue(s, a, h); }
    } else if LandsLocally(sys, a, i) {
      assert s.count <= |s.local| ==> (s.local + [sys.flights[a.f].h])[..s.count] == s.local[..s.count];
    }
  }

  lemma NotTakenThen(n: nat, acts: seq<Action>, k: nat, i: nat, h: nat)
    requires i < n && k < |acts| && !Takes(n, acts, k, i, h)
    ensures Waiting(At(n, acts[..k], i), h) ==> Waiting(At(n, acts[..k + 1], i), h)
    ensures Due(At(n, acts[..k], i), h) ==> Due(At(n, acts[..k + 1], i), h) && !Performed(n, acts, k, FinishBatch(i))
  {
    AfterNext(n, acts, k);
    OwnershipInEveryRun(n, acts[..k]);
    if Enabled(After(n, acts[..k]), acts[k]) {
      StepKeepsWaiting(After(n, acts[..k]), acts[k], i, h);
    }
  }

  lemma {:induction false} UntilTaken(n: nat, acts: seq<Action>, p: nat, m: nat, i: nat, h: nat)
    requires i < n && p <= m <= |acts|
    requires forall k | p <= k < m :: !Takes(n, acts, k, i, h)
    ensures Waiting(At(n, acts[..p], i), h) ==> Waiting(At(n, acts[..m], i), h)
    ensures Due(At(n, acts[..p], i), h) ==> Due(At(n, acts[..m], i), h)
    ensures Due(At(n, acts[..p], i), h) ==> forall k | p <= k < m :: !Performed(n, acts, k, FinishBatch(i))
    decreases m - p
  {
    if p == m {
    } else {
      UntilTaken(n, acts, p, m - 1, i, h);
      NotTakenThen(n, acts, m - 1, i, h);
    }
  }

  /** A handle of the batch under way, or queued while no batch is under way, is resumed before
      any batch of that scheduler ends. */
  lemma DueRunsInThisBatch(n: nat, acts: seq<Action>, p: nat, k: nat, i: nat, h: nat)
    requires i < n && p <= k && Performed(n, acts, k, FinishBatch(i)) && Due(At(n, acts[..p], i), h)
    ensures exists m | p <= m < k :: Takes(n, acts, m, i, h)
  {
    if forall m | p <= m < k :: !Takes(n, acts, m, i, h) {
      UntilTaken(n, acts, p, k, i, h);
      OwnershipInEveryRun(n, acts[..k]);
      OwnStepKeepsDue(At(n, acts[..k], i), FinishBatch(i), h);
      assert false;
    }
  }

  /** Batch fairness over runs: a handle in either queue of a scheduler, however it got there
      and whatever arrives later, has been resumed when that scheduler has ended two batches. */
  lemma QueuedRunsWithinTwoBatches(n: nat, acts: seq<Action>, p: nat, j: nat, k: nat, i: nat, h: nat)
    requires i < n && p <= j < k < |acts| && Waiting(At(n, acts[..p], i), h)
    requires Performed(n, acts, j, FinishBatch(i)) && Performed(n, acts, k, FinishBatch(i))
    ensures exists m | p <= m < k :: Takes(n, acts, m, i, h)
  {
    if m :| p <= m < j && Takes(n, acts, m, i, h) {
    } else {
      UntilTaken(n, acts, p, j, i, h);
      AfterNext(n, acts, j);
      OwnershipInEveryRun(n, acts[..j]);
      StepKeepsWaiting(After(n, acts[..j]), FinishBatch(i), i, h);
      DueRunsInThisBatch(n, acts, j + 1, k, i, h);
    }
  }

  // ---- Sleeping and halting ----

  /** In every run, a parked run thread that was not notified has its flag up and nothing to
      do: an empty queue while executing, or a suspended scheduler.  A halted scheduler
      leaves nobody parked without a notification. */
  lemma NeverSleepsThroughWork(n: nat, acts: seq<Action>, i: nat)
    requires i < n && !At(n, acts, i).awake
    ensures var s := At(n, acts, i);
            && (s.pc.OnCoroutinesCv? ==> s.waitC && s.status.Executing? && s.queue == [])
            && (s.pc.OnResumeCv? ==> s.waitR && s.status.Paused?)
            && (s.status.Halted? ==> !s.pc.OnCoroutinesCv? && !s.pc.OnResumeCv?)
  {
    OwnershipInEveryRun(n, acts);
  }

  // The handles pushed on the local queue since the batch began.
  function Fresh(s: Sched): seq<nat> {
    if s.pc.InBatch? then s.log.pushed else []
  }

  // What action `a` pushes on the local queue of `i`.
  function PushedBy(sys: System, a: Action, i: nat): seq<nat> {
    if !Enabled(sys, a) then []
    else if LandsLocally(sys, a, i) then [sys.flights[a.f].h]
    else if a == Yielded(i) then [sys.scheds[i].co.h]
    else []
  }

  // What the actions from number `p` on push on the local queue of `i`.
  function PushedSince(n: nat, acts: seq<Action>, p: nat, i: nat): seq<nat> {
    if |acts| <= p then []
    else PushedSince(n, acts[..|acts| - 1], p, i)
         + PushedBy(After(n, acts[..|acts| - 1]), acts[|acts| - 1], i)
  }

  // A halted scheduler gets nothing but what its own last batch pushes.
  lemma HaltedStep(sys: System, a: Action, i: nat)
    requires Enabled(sys, a) && SchedsInv(sys) && i < |sys.scheds| && sys.scheds[i].status.Halted?
    ensures i < |Perform(sys, a).scheds| && Perform(sys, a).scheds[i].status.Halted?
    ensures var s, t := sys.scheds[i], Perform(sys, a).scheds[i];
            t.queue + Fresh(t) == s.queue + Fresh(s) + PushedBy(sys, a, i)
    ensures sys.scheds[i].pc.Exited? ==> Perform(sys, a).scheds[i].pc.Exited? && PushedBy(sys, a, i) == []
  {
    OneSched(sys, a, i);
    HaltedStays(sys, a, i);
    var s := sys.scheds[i];
    if a == FinishBatch(i) {
      assert s.local[0..] == s.local;
    }
  }

  lemma HaltedThen(n: nat, before: seq<Action>, a: Action, i: nat)
    requires i < n && At(n, before, i).status.Halted?
    ensures var s, t := At(n, before, i), At(n, before + [a], i); var more := PushedBy(After(n, before), a, i);
            && t.status.Halted? && t.queue + Fresh(t) == s.queue + Fresh(s) + more
            && (s.pc.Exited? ==> t.pc.Exited? && more == [])
  {
    assert (before + [a])[..|before|] == before;
    OwnershipInEveryRun(n, before);
    if Enabled(After(n, before), a) {
      HaltedStep(After(n, before), a, i);
    }
  }

  lemma Regroup(a: seq<nat>, b: seq<nat>, c: seq<nat>)
    ensures (a + b) + c == a + (b + c)
  {
  }

  lemma PushedSinceThen(n: nat, before: seq<Action>, a: Action, p: nat, i: nat)
    requires p <= |before|
    ensures PushedSince(n, before + [a], p, i) == PushedSince(n, before, p, i) + PushedBy(After(n, before), a, i)
  {
    assert (before + [a])[..|before|] == before;
  }

  /** Halting is final, in every run: a halted scheduler stays halted, and in its queue and
      its batch it gets nothing but what that batch itself pushes from then on. */
  lemma {:induction false} HaltedStaysHalted(n: nat, acts: seq<Action>, p: nat, i: nat)
    requires i < n && p <= |acts| && At(n, acts[..p], i).status.Halted?
    ensures var s0, s := At(n, acts[..p], i), At(n, acts, i);
            s.status.Halted? && s.queue + Fresh(s) == s0.queue + Fresh(s0) + PushedSince(n, acts, p, i)
    ensures At(n, acts[..p], i).pc.Exited? ==> At(n, acts, i).pc.Exited? && PushedSince(n, acts, p, i) == []
    decreases |acts|
  {
    if p == |acts| {
      assert acts[..p] == acts;
    } else {
      var before, last := acts[..|acts| - 1], acts[|acts| - 1];
      assert before[..p] == acts[..p] && before + [last] == acts;
      HaltedStaysHalted(n, before, p, i);
      HaltedThen(n, before, last, i);
      PushedSinceThen(n, before, last, p, i);
      Regroup(At(n, acts[..p], i).queue + Fresh(At(n, acts[..p], i)), PushedSince(n, before, p, i),
              PushedBy(After(n, before), last, i));
    }
  }

  /** What is left when a halted scheduler's run() has exited: what was queued at the halt,
      what its batch had pushed by then, and what the batch pushed after.  So nothing is
      left behind if and only if all three are empty. */
  lemma HaltLeavesNothingExactlyWhen(n: nat, acts: seq<Action>, p: nat, i: nat)
    requires i < n && p <= |acts| && At(n, acts[..p], i).status.Halted? && At(n, acts, i).pc.Exited?
    ensures At(n, acts, i).local == [] && At(n, acts, i).co == Empty
    ensures var s := At(n, acts[..p], i);
            At(n, acts, i).queue == [] <==> s.queue == [] && Fresh(s) == [] && PushedSince(n, acts, p, i) == []
  {
    HaltedStaysHalted(n, acts, p, i);
    OwnershipInEveryRun(n, acts);
  }

  lemma HandleIsQueued()
    ensures var sys := After(1, [Spawn(Outside, 0, 7), Land(0)]);
            |sys.scheds| == 1 && sys.scheds[0] == Scheduler.Init().(queue := [7])
  {
    var acts := [Spawn(Outside, 0, 7), Land(0)];
    assert acts[..0] == [] && acts[..2] == acts;
    AfterNext(1, acts, 0);
    AfterNext(1, acts, 1);
    assert After(1, acts[..1]).flights == [Flight(Outside, 0, 7)];
  }

  lemma HandleIsQueuedAtHalt()
    ensures var sys := After(1, [Spawn(Outside, 0, 7), Land(0), HaltOp(0)]);
            |sys.scheds| == 1 && sys.scheds[0] == Scheduler.Init().(queue := [7], status := Halted)
  {
    var acts := [Spawn(Outside, 0, 7), Land(0), HaltOp(0)];
    assert acts[..2] == [Spawn(Outside, 0, 7), Land(0)] && acts[..3] == acts;
    HandleIsQueued();
    AfterNext(1, acts, 2);
  }

  /** A handle scheduled before the halt, on a scheduler whose run() has not begun, is left
      behind: run() exits at once. */
  lemma HaltLeavesHandle()
    ensures var s := At(1, [Spawn(Outside, 0, 7), Land(0), HaltOp(0), Start(0)], 0);
            s.pc.Exited? && s.queue == [7]
  {
    var acts := [Spawn(Outside, 0, 7), Land(0), HaltOp(0), Start(0)];
    assert acts[..3] == [Spawn(Outside, 0, 7), Land(0), HaltOp(0)] && acts[..4] == acts;
    HandleIsQueuedAtHalt();
    AfterNext(1, acts, 3);
  }
}
