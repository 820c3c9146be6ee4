/** The handshake between one awaiter and one resumer of an awaitable: await_ready(),
    await_suspend() and resume() cut into their atomic steps, for every await policy,
    resume policy and kind of awaiter, and interleaved in every way.

    The awaitable is of the ready-flag sort (joiner, timer, blocking call): on_ready()
    answers the flag and on_resume() sets it together with the result. */
module Handshake {

  datatype Kind = CoroutineAwaiter | ThreadAwaiter
  datatype AwaitPolicy = AdoptLock | DeferLock
  datatype ResumePolicy = Adopting | Locking | NoLocking

  datatype Config = Config(kind: Kind, await: AwaitPolicy, resume: ResumePolicy, message: int)

  datatype Result = Unset | Set(value: int)
  datatype Holder = Free | ByAwaiter | ByResumer

  // Where the awaiter is: the step it takes next.
  datatype AwaiterPc =
    | Arriving      // about to hold the lock
    | Checking      // on_ready()
    | Leaving       // ready at once: unlock and return
    | Suspending    // not ready: hand over the handle, or record the thread
    | Stored        // the handle is stored: unlock
    | Testing       // the thread, holding the lock, tests its ready flag
    | Parked        // the thread waits on its condition variable, the lock released
    | Waking        // the thread left the wait and wants the lock back
    | Unblocked     // the thread consumed its ready flag: unlock and return
    | Suspended     // the coroutine is suspended until somebody schedules its handle
    | Finished

  // Where the resumer is.
  datatype ResumerPc =
    | Coming        // about to hold the lock, itself or through its caller
    | Completing    // on_resume()
    | Choosing      // look for a handle, then for a thread
    | HasHandle | HandleFree // the handle taken; then the lock released
    | HasThread | FlagSet | Notifying
    | HasNobody
    | Releasing     // only the caller's unlock is left
    | Gone

  // The fields of the awaitable, its lock, and the awaiting thread.
  datatype Memory = Memory(
    lock: Holder,
    awaited: bool,
    ready: bool,
    result: Result,
    handle: bool,        // the awaitable owns the coroutine handle
    tt: bool,            // the awaitable refers to the blocked thread
    threadReady: bool,   // the thread's own flag
    immediate: bool,     // await_ready() answered true
    scheduled: nat,      // times the handle was passed to its destination
    unblocked: nat)      // times the thread came back from blocking

  datatype State = State(cfg: Config, a: AwaiterPc, r: ResumerPc, mem: Memory)

  function Init(cfg: Config): State {
    State(cfg, Arriving, Coming,
          Memory(if cfg.await.AdoptLock? then ByAwaiter else Free,
                 false, false, Unset, false, false, false, false, 0, 0))
  }

  datatype Mover = Awaiter | Resumer | Spurious

  function AwaiterMove(s: State): State {
    match s.a
    case Arriving =>
      if s.cfg.await.AdoptLock? then s.(a := Checking)
      else if s.mem.lock.Free? then s.(mem := s.mem.(lock := ByAwaiter), a := Checking) else s
    case Checking => s.(mem := s.mem.(awaited := true), a := if s.mem.ready then Leaving else Suspending)
    case Leaving => s.(mem := s.mem.(lock := Free, immediate := true), a := Finished)
    case Suspending =>
      if s.cfg.kind.CoroutineAwaiter? then s.(mem := s.mem.(handle := true), a := Stored)
      else s.(mem := s.mem.(tt := true), a := Testing)
    case Stored => s.(mem := s.mem.(lock := Free), a := Suspended)
    case Testing =>
      if s.mem.threadReady then s.(mem := s.mem.(threadReady := false), a := Unblocked)
      else s.(mem := s.mem.(lock := Free), a := Parked)
    case Parked => s
    case Waking => if s.mem.lock.Free? then s.(mem := s.mem.(lock := ByAwaiter), a := Testing) else s
    case Unblocked => s.(mem := s.mem.(lock := Free, unblocked := s.mem.unblocked + 1), a := Finished)
    case Suspended => if s.mem.scheduled > 0 then s.(a := Finished) else s
    case Finished => s
  }

  function ResumerMove(s: State): State {
    match s.r
    case Coming => if s.mem.lock.Free? then s.(mem := s.mem.(lock := ByResumer), r := Completing) else s
    case Completing => s.(mem := s.mem.(ready := true, result := Set(s.cfg.message)), r := Choosing)
    case Choosing =>
      if s.mem.handle then s.(mem := s.mem.(handle := false), r := HasHandle)
      else if s.mem.tt then s.(mem := s.mem.(tt := false), r := HasThread)
      else s.(r := HasNobody)
    case HasHandle =>
      if s.cfg.resume.NoLocking? then s.(mem := s.mem.(scheduled := s.mem.scheduled + 1), r := Releasing)
      else s.(mem := s.mem.(lock := Free), r := HandleFree)
    case HandleFree => s.(mem := s.mem.(scheduled := s.mem.scheduled + 1), r := Gone)
    case HasThread =>
      s.(mem := s.mem.(threadReady := true), r := if s.cfg.resume.NoLocking? then Notifying else FlagSet)
    case FlagSet => s.(mem := s.mem.(lock := Free), r := Notifying)
    case Notifying =>
      s.(a := if s.a.Parked? then Waking else s.a, r := if s.cfg.resume.NoLocking? then Releasing else Gone)
    case HasNobody => if s.cfg.resume.NoLocking? then s.(r := Releasing) else s.(mem := s.mem.(lock := Free), r := Gone)
    case Releasing => s.(mem := s.mem.(lock := Free), r := Gone)
    case Gone => s
  }

  function Move(s: State, m: Mover): State {
    match m
    case Awaiter => AwaiterMove(s)
    case Resumer => ResumerMove(s)
    case Spurious => if s.a.Parked? then s.(a := Waking) else s
  }

  // A run is a schedule: who moves next, for as long as it takes.
  function Moves(s: State, schedule: seq<Mover>): State
    decreases |schedule|
  {
    if schedule == [] then s else Moves(Move(s, schedule[0]), schedule[1..])
  }

  // ---- The invariant ----

  predicate AwaiterHolds(s: State) {
    match s.a
    case Arriving => s.cfg.await.AdoptLock?
    case Checking | Leaving | Suspending | Stored | Testing | Unblocked => true
    case _ => false
  }

  predicate ResumerHolds(s: State) {
    match s.r
    case Completing | Choosing | HasHandle | HasThread | FlagSet | HasNobody | Releasing => true
    case Notifying => s.cfg.resume.NoLocking?
    case _ => false
  }

  // The resumer has not looked for the awaiter yet.
  predicate Early(s: State) {
    s.r.Coming? || s.r.Completing? || s.r.Choosing?
  }

  // The thread is somewhere inside its blocking loop.
  predicate Blocking(s: State) {
    s.a.Testing? || s.a.Parked? || s.a.Waking?
  }

  /** The lock is held by whoever is inside a critical section, and by nobody else. */
  ghost predicate LockInv(s: State) {
    && (s.mem.lock.ByAwaiter? <==> AwaiterHolds(s))
    && (s.mem.lock.ByResumer? <==> ResumerHolds(s))
    && (s.r.HandleFree? || s.r.FlagSet? ==> !s.cfg.resume.NoLocking?)
    && (s.r.Releasing? ==> s.cfg.resume.NoLocking?)
  }

  /** The result is set exactly once, when the resumer completes. */
  ghost predicate ResultInv(s: State) {
    && (s.mem.ready <==> !s.r.Coming? && !s.r.Completing?)
    && s.mem.result == (if s.mem.ready then Set(s.cfg.message) else Unset)
    && (s.a.Arriving? || s.a.Checking? <==> !s.mem.awaited)
    && (s.a.Leaving? ==> s.mem.ready)
    && (s.a.Suspending? || s.a.Stored? ==> s.r.Coming?)
  }

  /** A coroutine's handle has one owner at any time: the awaitable until the resumer takes
      it, then the resumer until it is scheduled, once. */
  ghost predicate CoroutineInv(s: State) {
    && !s.mem.tt && !s.mem.threadReady && s.mem.unblocked == 0
    && !Blocking(s) && !s.a.Unblocked?
    && !s.r.HasThread? && !s.r.FlagSet? && !s.r.Notifying?
    && (s.mem.handle <==> (s.a.Stored? || s.a.Suspended?) && Early(s))
    && (s.r.HasHandle? || s.r.HandleFree? ==> s.a.Suspended?)
    && s.mem.scheduled == (if (s.r.Releasing? || s.r.Gone?) && (s.a.Suspended? || (s.a.Finished? && !s.mem.immediate))
                           then 1 else 0)
    && (s.r.HasNobody? ==> s.a.Arriving?)
    && (s.a.Finished? && !s.mem.immediate ==> s.r.Releasing? || s.r.Gone?)
    && ((s.a.Finished? && s.mem.immediate) || s.a.Leaving? ==> s.r.Gone?)
  }

  /** A thread that blocks is found by the resumer, or finds its flag set; once the
      resumer has notified it, it is not parked. */
  ghost predicate ThreadInv(s: State) {
    && !s.mem.handle && s.mem.scheduled == 0
    && !s.a.Stored? && !s.a.Suspended? && !s.r.HasHandle? && !s.r.HandleFree?
    && (s.mem.tt <==> Blocking(s) && Early(s))
    && (s.mem.threadReady <==> Blocking(s) && (s.r.FlagSet? || s.r.Notifying? || s.r.Releasing? || s.r.Gone?))
    && (s.a.Parked? ==> !s.r.Releasing? && !s.r.Gone? && !s.r.HasNobody?)
    && (s.r.HasThread? || s.r.FlagSet? ==> s.a.Parked? || s.a.Waking?)
    && (s.r.Notifying? ==> Blocking(s) || s.a.Unblocked? || (s.a.Finished? && !s.mem.immediate))
    && (s.r.HasNobody? ==> s.a.Arriving?)
    && (s.a.Unblocked? || (s.a.Finished? && !s.mem.immediate) ==> s.r.Notifying? || s.r.Releasing? || s.r.Gone?)
    && ((s.a.Finished? && s.mem.immediate) || s.a.Leaving? ==> s.r.Gone?)
    && s.mem.unblocked == (if s.a.Finished? && !s.mem.immediate then 1 else 0)
  }

  ghost predicate Inv(s: State) {
    && LockInv(s) && ResultInv(s)
    && (s.mem.immediate ==> s.a.Finished?)
    && (if s.cfg.kind.CoroutineAwaiter? then CoroutineInv(s) else ThreadInv(s))
  }

  lemma AwaiterKeepsInv(s: State)
    requires Inv(s)
    ensures Inv(AwaiterMove(s)) && AwaiterMove(s).cfg == s.cfg
  {
  }

  lemma ResumerKeepsInv(s: State)
    requires Inv(s)
    ensures Inv(ResumerMove(s)) && ResumerMove(s).cfg == s.cfg
  {
    match s.r
    case Coming =>
    case Completing =>
    case Choosing =>
    case HasHandle =>
    case HandleFree =>
    case HasThread =>
    case FlagSet =>
    case Notifying =>
    case HasNobody =>
    case Releasing =>
    case Gone =>
  }

  lemma SpuriousKeepsInv(s: State)
    requires Inv(s)
    ensures Inv(Move(s, Spurious))
  {
  }

  lemma {:induction false} RunKeepsInv(s: State, schedule: seq<Mover>)
    requires Inv(s)
    ensures Inv(Moves(s, schedule)) && Moves(s, schedule).cfg == s.cfg
    decreases |schedule|
  {
    if schedule == [] {
    } else {
      match schedule[0] {
        case Awaiter => AwaiterKeepsInv(s);
        case Resumer => ResumerKeepsInv(s);
        case Spurious => SpuriousKeepsInv(s);
      }
      RunKeepsInv(Move(s, schedule[0]), schedule[1..]);
    }
  }

  // ---- No wake-up is lost ----

  /** After any schedule of any handshake the invariant holds. */
  lemma ReachableInv(cfg: Config, schedule: seq<Mover>)
    ensures Inv(Moves(Init(cfg), schedule)) && Moves(Init(cfg), schedule).cfg == cfg
  {
    RunKeepsInv(Init(cfg), schedule);
  }

  predicate BothDone(s: State) {
    s.a.Finished? && s.r.Gone?
  }

  /** Once both have taken their steps the awaiter has the resumer's result, it completed at
      once or was woken exactly once, the lock is free, and nothing refers to it any more. */
  lemma OutcomeWhenBothDone(cfg: Config, schedule: seq<Mover>)
    requires BothDone(Moves(Init(cfg), schedule))
    ensures var s := Moves(Init(cfg), schedule);
            && s.mem.lock == Free && s.mem.awaited && s.mem.result == Set(cfg.message)
            && !s.mem.handle && !s.mem.tt && !s.mem.threadReady
            && s.mem.scheduled == (if cfg.kind.CoroutineAwaiter? && !s.mem.immediate then 1 else 0)
            && s.mem.unblocked == (if cfg.kind.ThreadAwaiter? && !s.mem.immediate then 1 else 0)
  {
    ReachableInv(cfg, schedule);
  }

  /** No handle is scheduled twice and no thread comes back twice, at any time; an awaiter
      that finished without waiting was not woken at all. */
  lemma WokenAtMostOnce(cfg: Config, schedule: seq<Mover>)
    ensures var s := Moves(Init(cfg), schedule);
            s.mem.scheduled + s.mem.unblocked <= 1 && (s.mem.immediate ==> s.mem.scheduled + s.mem.unblocked == 0)
  {
    ReachableInv(cfg, schedule);
  }

  /** The awaiter never returns before the resumer has set the result. */
  lemma NoEarlyReturn(cfg: Config, schedule: seq<Mover>)
    ensures var s := Moves(Init(cfg), schedule); s.a.Finished? ==> s.mem.result == Set(cfg.message)
  {
    ReachableInv(cfg, schedule);
  }

  /** Until both are done one of them can move: a suspended awaiter is never forgotten. */
  lemma NeverStuck(cfg: Config, schedule: seq<Mover>)
    ensures var s := Moves(Init(cfg), schedule);
            BothDone(s) || AwaiterMove(s) != s || ResumerMove(s) != s
  {
    ReachableInv(cfg, schedule);
    var s := Moves(Init(cfg), schedule);
    if !BothDone(s) && s.r.Coming? {
      assert s.mem.lock.Free? || s.mem.lock.ByAwaiter?;
    }
  }

  // ---- Every handshake ends ----

  function AwaiterRank(a: AwaiterPc): nat {
    match a
    case Arriving => 8 case Checking => 7 case Suspending => 6 case Stored => 5
    case Waking => 4 case Testing => 3 case Parked => 2 case Leaving => 1
    case Unblocked => 1 case Suspended => 1 case Finished => 0
  }

  // A step of the resumer may wake the awaiter, so it weighs more.
  function ResumerRank(r: ResumerPc): nat {
    match r
    case Coming => 36 case Completing => 30 case Choosing => 24 case HasHandle => 18
    case HasThread => 21 case FlagSet => 18 case Notifying => 12 case HasNobody => 12
    case HandleFree => 6 case Releasing => 6 case Gone => 0
  }

  function Rank(s: State): nat {
    AwaiterRank(s.a) + ResumerRank(s.r)
  }

  // The steps in a schedule that change anything, and its spurious wake-ups.
  function Effective(s: State, schedule: seq<Mover>): nat
    decreases |schedule|
  {
    if schedule == [] then 0
    else (if schedule[0].Spurious? || Move(s, schedule[0]) == s then 0 else 1)
         + Effective(Move(s, schedule[0]), schedule[1..])
  }

  function SpuriousCount(schedule: seq<Mover>): nat
    decreases |schedule|
  {
    if schedule == [] then 0 else (if schedule[0].Spurious? then 1 else 0) + SpuriousCount(schedule[1..])
  }

  lemma AwaiterMoveUsesRank(s: State)
    ensures AwaiterMove(s).r == s.r
    ensures AwaiterMove(s) == s || AwaiterRank(AwaiterMove(s).a) < AwaiterRank(s.a)
  {
    match s.a
    case Arriving =>
    case Checking =>
    case Leaving =>
    case Suspending =>
    case Stored =>
    case Testing =>
    case Parked =>
    case Waking =>
    case Unblocked =>
    case Suspended =>
    case Finished =>
  }

  lemma ResumerMoveUsesRank(s: State)
    ensures AwaiterRank(ResumerMove(s).a) <= AwaiterRank(s.a) + 2
    ensures ResumerMove(s) == s || ResumerRank(ResumerMove(s).r) + 3 <= ResumerRank(s.r)
  {
    match s.r
    case Coming =>
    case Completing =>
    case Choosing =>
    case HasHandle =>
    case HandleFree =>
    case HasThread =>
    case FlagSet =>
    case Notifying =>
    case HasNobody =>
    case Releasing =>
    case Gone =>
  }

  /** Every effective step uses up rank, and only a spurious wake-up gives any back: a
      handshake takes boundedly many steps however it is scheduled. */
  lemma {:induction false} StepsAreBounded(s: State, schedule: seq<Mover>)
    ensures Effective(s, schedule) + Rank(Moves(s, schedule)) <= Rank(s) + 2 * SpuriousCount(schedule)
    decreases |schedule|
  {
    if schedule == [] {
    } else {
      var s' := Move(s, schedule[0]);
      match schedule[0] {
        case Awaiter => AwaiterMoveUsesRank(s);
        case Resumer => ResumerMoveUsesRank(s);
        case Spurious => assert Rank(s') <= Rank(s) + 2;
      }
      StepsAreBounded(s', schedule[1..]);
    }
  }

  /** From start to end a handshake takes at most 44 steps, and two more for every
      spurious wake-up of the condition variable. */
  lemma HandshakeTerminates(cfg: Config, schedule: seq<Mover>)
    ensures Effective(Init(cfg), schedule) <= 44 + 2 * SpuriousCount(schedule)
  {
    StepsAreBounded(Init(cfg), schedule);
  }

  // ---- The object ----

  /** The awaitable with its lock and the awaiting thread, run without interruption: each
      method performs the steps of one critical section in the order of the source. */
  class AwaitableInterface {
    const cfg: Config
    var lock: Holder
    var awaited: bool
    var ready: bool
    var result: Result
    var handle: bool
    var tt: bool
    var threadReady: bool
    var scheduled: nat
    ghost var a: AwaiterPc
    ghost var r: ResumerPc
    ghost var immediate: bool
    ghost var unblocked: nat

    ghost function View(): State
      reads this
    {
      State(cfg, a, r, Memory(lock, awaited, ready, result, handle, tt, threadReady, immediate, scheduled, unblocked))
    }

    constructor (cfg: Config)
      ensures this.cfg == cfg && View() == Init(cfg)
    {
      this.cfg := cfg;
      lock := if cfg.await.AdoptLock? then ByAwaiter else Free;
      awaited, ready, result := false, false, Unset;
      handle, tt, threadReady, scheduled := false, false, false, 0;
      a, r, immediate, unblocked := Arriving, Coming, false, 0;
    }

    // await_ready(), entered when the lock can be had.
    method AwaitReady() returns (done: bool)
      requires a == Arriving && (cfg.await.AdoptLock? || lock == Free)
      modifies this
      ensures View() == Repeat(old(View()), Awaiter, if done then 3 else 2)
      ensures done <==> old(ready)
      ensures a == if done then Finished else Suspending
    {
      ghost var s := View();
      if cfg.await == DeferLock {
        lock := ByAwaiter;
      }
      a := Checking;
      assert View() == Repeat(s, Awaiter, 1);
      awaited := true;
      a := if ready then Leaving else Suspending;
      assert View() == Repeat(s, Awaiter, 2);
      done := ready;
      if done {
        lock, a, immediate := Free, Finished, true;
      }
    }

    // await_suspend() in a coroutine: the awaitable takes the handle, then unlocks.
    method AwaitSuspendCoroutine()
      requires a == Suspending && cfg.kind.CoroutineAwaiter?
      modifies this
      ensures View() == Repeat(old(View()), Awaiter, 2) && a == Suspended
    {
      ghost var s := View();
      handle, a := true, Stored;
      assert View() == Repeat(s, Awaiter, 1);
      lock, a := Free, Suspended;
    }

    // await_suspend() in a system thread, up to its first wait.
    method AwaitSuspendThread()
      requires a == Suspending && cfg.kind.ThreadAwaiter? && !threadReady
      modifies this
      ensures View() == Repeat(old(View()), Awaiter, 2) && a == Parked
    {
      ghost var s := View();
      tt, a := true, Testing;
      assert View() == Repeat(s, Awaiter, 1);
      lock, a := Free, Parked;
    }

    // The thread's blocking loop from a wake-up on: it returns, or waits again.
    method Reacquire() returns (returned: bool)
      requires a == Waking && lock == Free
      modifies this
      ensures View() == Repeat(old(View()), Awaiter, if returned then 3 else 2)
      ensures returned <==> old(threadReady)
      ensures a == if returned then Finished else Parked
    {
      ghost var s := View();
      lock, a := ByAwaiter, Testing;
      assert View() == Repeat(s, Awaiter, 1);
      returned := threadReady;
      if threadReady {
        threadReady, a := false, Unblocked;
        assert View() == Repeat(s, Awaiter, 2);
        lock, a, unblocked := Free, Finished, unblocked + 1;
      } else {
        lock, a := Free, Parked;
      }
    }

    // resume() with a suspended coroutine: the handle goes to its destination once.
    method ResumeCoroutine()
      requires r == Choosing && handle
      modifies this
      ensures View() == Repeat(old(View()), Resumer, 3)
      ensures r == Gone && lock == Free && result == old(result)
    {
      ghost var s := View();
      handle, r := false, HasHandle;
      assert View() == Repeat(s, Resumer, 1);
      if cfg.resume != NoLocking {
        lock, r := Free, HandleFree;
        assert View() == Repeat(s, Resumer, 2);
        scheduled, r := scheduled + 1, Gone;
      } else {
        scheduled, r := scheduled + 1, Releasing;
        assert View() == Repeat(s, Resumer, 2);
        lock, r := Free, Gone;
      }
    }

    // resume() with a blocked thread: its flag is set under the lock, then it is notified.
    method ResumeThread()
      requires r == Choosing && !handle && tt
      modifies this
      ensures View() == Repeat(old(View()), Resumer, 4)
      ensures r == Gone && lock == Free && result == old(result)
    {
      ghost var s := View();
      tt, r := false, HasThread;
      assert View() == Repeat(s, Resumer, 1);
      threadReady, r := true, if cfg.resume == NoLocking then Notifying else FlagSet;
      assert View() == Repeat(s, Resumer, 2);
      RepeatAdd(s, Resumer, 2, 2);
      if cfg.resume != NoLocking {
        UnlockAndNotify();
      } else {
        NotifyAndUnlock();
      }
    }

    method UnlockAndNotify()
      requires r == FlagSet && cfg.resume != NoLocking
      modifies this
      ensures View() == Repeat(old(View()), Resumer, 2)
      ensures r == Gone && lock == Free && result == old(result)
    {
      ghost var s := View();
      lock, r := Free, Notifying;
      assert View() == Repeat(s, Resumer, 1);
      Notify(Gone);
    }

    // Without locking the caller still holds the lock here, and unlocks last.
    method NotifyAndUnlock()
      requires r == Notifying && cfg.resume == NoLocking
      modifies this
      ensures View() == Repeat(old(View()), Resumer, 2)
      ensures r == Gone && lock == Free && result == old(result)
    {
      ghost var s := View();
      Notify(Releasing);
      assert View() == Repeat(s, Resumer, 1);
      lock, r := Free, Gone;
    }

    method Notify(next: ResumerPc)
      modifies this`a, this`r
      ensures r == next && a == if old(a) == Parked then Waking else old(a)
    {
      if a == Parked { a := Waking; }
      r := next;
    }

    // resume() before anybody suspended.
    method ResumeNobody()
      requires r == Choosing && !handle && !tt
      modifies this
      ensures View() == Repeat(old(View()), Resumer, if cfg.resume.NoLocking? then 3 else 2)
      ensures r == Gone && lock == Free && result == old(result)
    {
      ghost var s := View();
      r := HasNobody;
      assert View() == Repeat(s, Resumer, 1);
      if cfg.resume != NoLocking {
        lock, r := Free, Gone;
      } else {
        r := Releasing;
        assert View() == Repeat(s, Resumer, 2);
        lock, r := Free, Gone;
      }
    }

    // The lock is taken, and on_resume() sets the flag and the result.
    method OnResume(message: int)
      requires r == Coming && lock == Free && message == cfg.message
      modifies this`lock, this`ready, this`result, this`r
      ensures View() == Repeat(old(View()), Resumer, 2) && r == Choosing && result == Set(message)
    {
      ghost var s := View();
      lock, r := ByResumer, Completing;
      assert View() == Repeat(s, Resumer, 1);
      ready, result, r := true, Set(message), Choosing;
    }

    /** resume(), together with the locking that its policy leaves to the caller: run
        without interruption it takes the resumer from its first step to its last. */
    method Resume(message: int)
      requires r == Coming && lock == Free && message == cfg.message
      modifies this
      ensures View() == Repeat(old(View()), Resumer, ResumeSteps(cfg.resume, old(handle), old(tt)))
      ensures r == Gone && lock == Free && result == Set(message)
    {
      ghost var s := View();
      OnResume(message);
      RepeatAdd(s, Resumer, 2, ResumeSteps(cfg.resume, handle, tt) - 2);
      if handle {
        ResumeCoroutine();
      } else if tt {
        ResumeThread();
      } else {
        ResumeNobody();
      }
    }
  }

  function Repeat(s: State, m: Mover, n: nat): State {
    if n == 0 then s else Move(Repeat(s, m, n - 1), m)
  }

  lemma {:induction false} RepeatAdd(s: State, m: Mover, i: nat, j: nat)
    ensures Repeat(Repeat(s, m, i), m, j) == Repeat(s, m, i + j)
    decreases j
  {
    if j == 0 {
    } else {
      RepeatAdd(s, m, i, j - 1);
    }
  }

  // How many atomic steps a resume() takes.
  function ResumeSteps(policy: ResumePolicy, handle: bool, tt: bool): nat {
    if handle then 5 else if tt then 6 else if policy.NoLocking? then 5 else 4
  }
}
