/** One scheduler: its lifecycle, its two condition variables with their "waiting"
    flags, and the run loop that takes the queue over in batches.  Every function is
    one critical section, or one step of the run thread outside the lock. */
module Scheduler {

  datatype Status = Executing | Halted | Paused

  // Where the run thread is.
  datatype Pc = NotStarted | InBatch | OnResumeCv | OnCoroutinesCv | Exited

  // The coroutine object of the batch loop: empty, or owning a handle.
  datatype Slot = Empty | Owns(h: nat)

  datatype Sched = Sched(
    status: Status,
    queue: seq<nat>,       // coroutine_queue_, guarded by the lock
    local: seq<nat>,       // the run thread's own queue
    co: Slot,
    running: bool,         // inside co.resume()
    count: nat,            // handles of the batch still to be resumed
    batchSize: nat,
    waitR: bool,           // waiting_for_resume_
    waitC: bool,           // waiting_for_coroutines_
    pc: Pc,
    awake: bool,           // a parked run thread was notified, or woke up by itself
    log: Log)

  // History of the current batch: what was swapped in, resumed, and pushed locally.
  datatype Log = Log(batch: seq<nat>, resumed: seq<nat>, pushed: seq<nat>)

  const NO_LOG := Log([], [], [])

  function Init(): Sched {
    Sched(Executing, [], [], Empty, false, 0, 0, false, false, NotStarted, false, NO_LOG)
  }

  // ---- The public operations ----

  function NotifyCoroutines(s: Sched): Sched {
    if s.waitC then s.(waitC := false, awake := s.awake || s.pc.OnCoroutinesCv?) else s
  }

  function NotifyResume(s: Sched): Sched {
    if s.waitR then s.(waitR := false, awake := s.awake || s.pc.OnResumeCv?) else s
  }

  // schedule_() from another thread; a halted scheduler throws instead.
  function ScheduleRemote(s: Sched, h: nat): Sched
    requires !s.status.Halted?
  {
    NotifyCoroutines(s.(queue := s.queue + [h]))
  }

  // schedule_() from the run thread itself.
  function ScheduleLocal(s: Sched, h: nat): Sched {
    s.(local := s.local + [h], log := s.log.(pushed := s.log.pushed + [h]))
  }

  function Suspend(s: Sched): Sched {
    if s.status.Halted? then s else NotifyCoroutines(s.(status := Paused))
  }

  function Resume(s: Sched): Sched {
    if s.status.Paused? then NotifyResume(s.(status := Executing)) else s
  }

  function Halt(s: Sched): Sched {
    if s.status.Halted? then s else NotifyCoroutines(NotifyResume(s.(status := Halted)))
  }

  // ---- The run thread ----

  /** The run thread, holding the lock, up to the point where it gives the lock up. */
  function RunLocked(s: Sched): Sched {
    match s.status
    case Executing =>
      if s.queue != [] then
        s.(local := s.queue, queue := s.local, batchSize := |s.queue|, count := |s.queue|,
           pc := InBatch, awake := false, log := Log(s.queue, [], []))
      else s.(waitC := true, pc := OnCoroutinesCv, awake := false)
    case Paused => s.(batchSize := 0, waitC := false, waitR := true, pc := OnResumeCv, awake := false)
    case Halted => s.(batchSize := 0, waitC := false, waitR := false, pc := Exited, awake := false)
  }

  predicate CanWake(s: Sched) {
    s.pc.NotStarted? || ((s.pc.OnResumeCv? || s.pc.OnCoroutinesCv?) && s.awake)
  }

  predicate CanTakeNext(s: Sched) {
    s.pc.InBatch? && !s.running && s.count > 0
  }

  // Takes the next handle of the batch; whatever the slot held before is destroyed.
  function TakeNext(s: Sched): Sched
    requires CanTakeNext(s) && s.local != []
  {
    s.(co := Owns(s.local[0]), local := s.local[1..], count := s.count - 1, running := true,
       log := s.log.(resumed := s.log.resumed + [s.local[0]]))
  }

  predicate Occupied(s: Sched) {
    s.pc.InBatch? && s.running && s.co.Owns?
  }

  // The coroutine suspended without giving its handle away: back into the local queue.
  function Yield(s: Sched): Sched
    requires Occupied(s)
  {
    ScheduleLocal(s, s.co.h).(co := Empty, running := false)
  }

  // The coroutine ran to its end; its handle stays in the slot until it is replaced.
  function Complete(s: Sched): Sched
    requires Occupied(s)
  {
    s.(running := false)
  }

  // An awaitable took the handle over.
  function Release(s: Sched): Sched
    requires Occupied(s)
  {
    s.(co := Empty)
  }

  predicate CanEndBatch(s: Sched) {
    s.pc.InBatch? && !s.running && s.count == 0
  }

  // Relocks, returns the local queue to the main one, and goes on.
  function EndBatch(s: Sched): Sched
    requires CanEndBatch(s)
  {
    RunLocked(Requeued(s))
  }

  function Requeued(s: Sched): Sched {
    s.(co := Empty, queue := s.queue + s.local, local := [], batchSize := 0, log := NO_LOG)
  }

  // ---- The invariant of one scheduler ----

  /** A flag is set only while the run thread is parked with nothing to do, and a parked
      run thread that was not notified has its flag set. */
  ghost predicate SleepInv(s: Sched) {
    && (s.waitC ==> s.pc.OnCoroutinesCv? && s.status.Executing? && s.queue == [])
    && (s.waitR ==> s.pc.OnResumeCv? && s.status.Paused?)
    && (s.pc.OnCoroutinesCv? && !s.awake ==> s.waitC)
    && (s.pc.OnResumeCv? && !s.awake ==> s.waitR)
    && (s.pc.Exited? ==> s.status.Halted?)
  }

  /** The batch is what was resumed so far and what is left at the front of the local
      queue; everything pushed since follows behind it. */
  ghost predicate BatchInv(s: Sched) {
    if s.pc.InBatch? then
      && s.count <= |s.local|
      && s.log.batch == s.log.resumed + s.local[..s.count]
      && s.log.pushed == s.local[s.count..]
      && (s.running || s.co.Owns? ==> s.log.resumed != [])
      && (s.co.Owns? && s.log.resumed != [] ==> s.co.h == s.log.resumed[|s.log.resumed| - 1])
    else
      s.local == [] && s.co == Empty && !s.running && s.count == 0 && s.batchSize == 0
  }

  ghost predicate Inv(s: Sched) {
    SleepInv(s) && BatchInv(s)
  }

  lemma OperationsKeepInv(s: Sched, h: nat)
    requires Inv(s)
    ensures Inv(Suspend(s)) && Inv(Resume(s)) && Inv(Halt(s))
    ensures !s.status.Halted? ==> Inv(ScheduleRemote(s, h))
    ensures s.pc.InBatch? ==> Inv(ScheduleLocal(s, h))
  {
    if s.pc.InBatch? {
      assert (s.local + [h])[..s.count] == s.local[..s.count];
      assert (s.local + [h])[s.count..] == s.local[s.count..] + [h];
    }
  }

  lemma RunLockedKeepsInv(s: Sched)
    requires Inv(s) && !s.pc.InBatch? && !s.pc.Exited?
    ensures Inv(RunLocked(s))
  {
  }

  lemma TakeNextKeepsInv(s: Sched)
    requires Inv(s) && CanTakeNext(s)
    ensures s.local != [] && Inv(TakeNext(s))
  {
    assert s.local[..s.count] == [s.local[0]] + s.local[1..][..s.count - 1];
    assert s.local[s.count..] == s.local[1..][s.count - 1..];
  }

  lemma OutcomesKeepInv(s: Sched)
    requires Inv(s) && Occupied(s)
    ensures Inv(Yield(s)) && Inv(Complete(s)) && Inv(Release(s)) && Inv(s.(running := false))
  {
    OperationsKeepInv(s, s.co.h);
  }

  /** Batch fairness: every handle that was queued at the swap was resumed once, in queue
      order, none that arrived later was, and the queue that the run thread goes on with
      is what arrived from other threads followed by its own pushes in order. */
  lemma BatchIsFair(s: Sched)
    requires Inv(s) && CanEndBatch(s)
    ensures s.log.resumed == s.log.batch
    ensures Requeued(s).queue == s.queue + s.log.pushed
    ensures Inv(EndBatch(s))
  {
    assert s.local[..0] == [] && s.local[0..] == s.local;
    RunLockedKeepsInv(Requeued(s).(pc := NotStarted));
    assert RunLocked(Requeued(s).(pc := NotStarted)) == RunLocked(Requeued(s));
  }

  /** The batch that follows holds everything that arrived or was pushed during this one, in
      order; with nothing there the run thread waits. */
  lemma QueuedRunsInNextBatch(s: Sched)
    requires Inv(s) && CanEndBatch(s) && s.status.Executing?
    ensures var t := EndBatch(s); var next := s.queue + s.log.pushed;
            if next == [] then t.pc.OnCoroutinesCv?
            else t.pc.InBatch? && t.log.batch == next == t.local && t.count == |next| && t.queue == []
  {
    BatchIsFair(s);
  }

  // ---- The object ----

  // What a coroutine does between being resumed and handing control back: the handles it
  // schedules here, and whether it stays, ends, or leaves its handle with an awaitable.
  datatype Turn = Turn(spawned: seq<nat>, outcome: Outcome)
  datatype Outcome = Yields | Ends | Leaves

  // What the turns of a batch push on the local queue, in order.
  ghost function Pushes(batch: seq<nat>, script: seq<Turn>): seq<nat>
    requires |batch| == |script|
  {
    if batch == [] then []
    else Pushes(batch[..|batch| - 1], script[..|script| - 1])
         + PushesOf(batch[|batch| - 1], script[|script| - 1])
  }

  ghost function PushesOf(h: nat, t: Turn): seq<nat> {
    t.spawned + if t.outcome.Yields? then [h] else []
  }

  // The handles destroyed by a batch: those of the coroutines that ended, in order.
  ghost function Ended(batch: seq<nat>, script: seq<Turn>): seq<nat>
    requires |batch| == |script|
  {
    if batch == [] then []
    else Ended(batch[..|batch| - 1], script[..|script| - 1])
         + if script[|script| - 1].outcome.Ends? then [batch[|batch| - 1]] else []
  }

  // The handles in the slot.
  function InSlot(co: Slot): seq<nat> {
    if co.Owns? then [co.h] else []
  }

  // After `n` turns of the batch loop that started with `batch` in the local queue.
  ghost predicate Progress(batch: seq<nat>, script: seq<Turn>, n: nat, local: seq<nat>, co: Slot, destroyed: seq<nat>)
    requires n <= |batch| == |script|
  {
    && local == batch[n..] + Pushes(batch[..n], script[..n])
    && destroyed + InSlot(co) == Ended(batch[..n], script[..n])
  }

  lemma OneMoreTurn(batch: seq<nat>, script: seq<Turn>, n: nat, local: seq<nat>, co: Slot, destroyed: seq<nat>)
    requires n < |batch| == |script| && Progress(batch, script, n, local, co, destroyed)
    ensures local != [] && local[0] == batch[n] && batch[..n + 1] == batch[..n] + [batch[n]]
    ensures Progress(batch, script, n + 1, local[1..] + PushesOf(batch[n], script[n]),
                     if script[n].outcome.Ends? then Owns(batch[n]) else Empty, destroyed + InSlot(co))
  {
    assert batch[..n + 1][..n] == batch[..n] && script[..n + 1][..n] == script[..n];
    assert local[1..] + PushesOf(batch[n], script[n])
        == batch[n + 1..] + (Pushes(batch[..n], script[..n]) + PushesOf(batch[n], script[n]));
  }

  class SchedulerObject {
    var status: Status
    var queue: seq<nat>
    var local: seq<nat>
    var co: Slot
    var running: bool
    var count: nat
    var batchSize: nat
    var waitingForResume: bool
    var waitingForCoroutines: bool
    ghost var pc: Pc
    var awake: bool
    ghost var log: Log

    ghost function View(): Sched
      reads this
    {
      Sched(status, queue, local, co, running, count, batchSize, waitingForResume, waitingForCoroutines, pc, awake, log)
    }

    constructor ()
      ensures View() == Init()
    {
      status, queue, local, co, running := Executing, [], [], Empty, false;
      count, batchSize, waitingForResume, waitingForCoroutines := 0, 0, false, false;
      pc, awake, log := NotStarted, false, NO_LOG;
    }

    // Notifications reach the run thread only while it is parked on that condition.
    method ResumeNotify_()
      requires waitingForResume ==> pc.OnResumeCv?
      modifies this`waitingForResume, this`awake
      ensures View() == NotifyResume(old(View()))
    {
      if waitingForResume {
        waitingForResume := false;
        awake := true;
      }
    }

    method CoroutinesNotify_()
      requires waitingForCoroutines ==> pc.OnCoroutinesCv?
      modifies this`waitingForCoroutines, this`awake
      ensures View() == NotifyCoroutines(old(View()))
    {
      if waitingForCoroutines {
        waitingForCoroutines := false;
        awake := true;
      }
    }

    // `onRunThread`: the caller is a coroutine that this scheduler is executing.
    method Schedule_(h: nat, onRunThread: bool) returns (accepted: bool)
      requires Inv(View()) && (onRunThread ==> pc.InBatch?)
      modifies this
      ensures Inv(View())
      ensures accepted <==> onRunThread || !old(status).Halted?
      ensures View() == if onRunThread then ScheduleLocal(old(View()), h)
                        else if accepted then ScheduleRemote(old(View()), h) else old(View())
    {
      OperationsKeepInv(View(), h);
      accepted := true;
      if onRunThread {
        local := local + [h];
        log := log.(pushed := log.pushed + [h]);
      } else if status == Halted {
        accepted := false;
      } else {
        queue := queue + [h];
        CoroutinesNotify_();
      }
    }

    method Suspend_()
      requires Inv(View())
      modifies this
      ensures Inv(View()) && View() == Suspend(old(View()))
    {
      OperationsKeepInv(View(), 0);
      if status != Halted {
        status := Paused;
        CoroutinesNotify_();
      }
    }

    method Resume_()
      requires Inv(View())
      modifies this
      ensures Inv(View()) && View() == Resume(old(View()))
    {
      OperationsKeepInv(View(), 0);
      if status == Paused {
        status := Executing;
        ResumeNotify_();
      }
    }

    method Halt_()
      requires Inv(View())
      modifies this
      ensures Inv(View()) && View() == Halt(old(View()))
    {
      OperationsKeepInv(View(), 0);
      if status != Halted {
        status := Halted;
        ResumeNotify_();
        CoroutinesNotify_();
      }
    }

    // The run loop with the lock held, from wherever the thread got the lock back to where
    // it waits, starts a batch, or returns.  `evaluating`: it was inside the inner loop.
    method Run(evaluating: bool)
      requires Inv(View()) && !pc.InBatch? && !pc.Exited?
      requires pc.OnCoroutinesCv? ==> evaluating
      requires pc.OnResumeCv? ==> !evaluating
      modifies this
      ensures Inv(View()) && View() == RunLocked(old(View()))
    {
      RunLockedKeepsInv(View());
      var inner := evaluating;
      while inner || status != Halted
        invariant inner ==> View() == old(View())
        invariant status == old(status)
        invariant !inner ==> View() == old(View()) || (!status.Executing? && View() == old(View()).(
            batchSize := 0, waitR := false, waitC := false))
        decreases inner
      {
        if !inner && status == Paused {
          waitingForResume := true;
          pc, awake := OnResumeCv, false;
          return;
        }
        if status == Executing {
          if |queue| > 0 {
            log := Log(queue, [], []);
            local, queue := queue, local;
            batchSize, count := |local|, |local|;
            pc, awake := InBatch, false;
          } else {
            waitingForCoroutines := true;
            pc, awake := OnCoroutinesCv, false;
          }
          return;
        }
        batchSize, waitingForResume, waitingForCoroutines := 0, false, false;
        inner := false;
      }
      pc, awake := Exited, false;
    }

    /** The batch loop, for any behaviour of the coroutines in it. */
    method EvaluateBatch(script: seq<Turn>) returns (ran: seq<nat>, destroyed: seq<nat>)
      requires Inv(View()) && pc.InBatch? && !running && co == Empty
      requires log.resumed == [] && count == |local| == |script|
      modifies this
      ensures Inv(View()) && CanEndBatch(View()) && co == Empty
      ensures ran == old(local) && destroyed == Ended(old(local), script)
      ensures local == Pushes(old(local), script) && log.batch == old(log).batch && log.pushed == local
      ensures queue == old(queue) && status == old(status)
    {
      var n := 0;
      ran, destroyed := [], [];
      assert local[..0] == [] && script[..0] == [] && local[0..] == local;
      while count > 0
        invariant Inv(View()) && pc.InBatch? && !running && n + count == |script|
        invariant Progress(old(local), script, n, local, co, destroyed)
        invariant ran == old(local)[..n]
        invariant queue == old(queue) && status == old(status) && log.batch == old(log).batch
        decreases count
      {
        ghost var local0, co0, destroyed0 := local, co, destroyed;
        ran := ran + [local[0]];
        destroyed := BeginTurn(destroyed);
        EndTurn(script[n]);
        OneMoreTurn(old(local), script, n, local0, co0, destroyed0);
        n := n + 1;
      }
      assert old(local)[..n] == old(local) && script[..n] == script;
      if co.Owns? {
        destroyed := destroyed + [co.h];
        co := Empty;
      }
      BatchIsFair(View());
    }

    // Replaces the slot by the front of the local queue, destroying the old handle.
    method BeginTurn(destroyed: seq<nat>) returns (destroyed': seq<nat>)
      requires Inv(View()) && CanTakeNext(View())
      modifies this
      ensures Inv(View()) && old(local) != [] && View() == TakeNext(old(View()))
      ensures destroyed' == destroyed + InSlot(old(co))
    {
      TakeNextKeepsInv(View());
      destroyed' := destroyed + InSlot(co);
      co, running := Owns(local[0]), true;
      log := log.(resumed := log.resumed + [local[0]]);
      local, count := local[1..], count - 1;
    }

    method EndTurn(turn: Turn)
      requires Inv(View()) && Occupied(View())
      modifies this
      ensures Inv(View()) && pc == old(pc) && !running && count == old(count)
      ensures local == old(local) + PushesOf(old(co).h, turn)
      ensures co == if turn.outcome.Ends? then old(co) else Empty
      ensures queue == old(queue) && status == old(status) && log.batch == old(log).batch
    {
      for i := 0 to |turn.spawned|
        invariant Inv(View()) && pc == old(pc) && running && co == old(co) && count == old(count)
        invariant local == old(local) + turn.spawned[..i]
        invariant queue == old(queue) && status == old(status) && log.batch == old(log).batch
      {
        var accepted := Schedule_(turn.spawned[i], true);
      }
      OutcomesKeepInv(View());
      match turn.outcome {
        case Yields =>
          local := local + [co.h];
          log := log.(pushed := log.pushed + [co.h]);
          co := Empty;
        case Ends =>
        case Leaves =>
          co := Empty;
      }
      running := false;
    }
  }
}
