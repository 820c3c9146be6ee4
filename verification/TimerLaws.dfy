/** What the calls of the timer service and the passes of its thread achieve, in every run:
    a cancelled timer never fires, a started one is pending and wakes the thread, and one
    that is due is fired by the thread's next steps. */
module TimerLaws {
  import opened TimerService

  // The list `ts` without its element number `k`.
  function Without(ts: seq<Timer>, k: nat): seq<Timer>
    requires k < |ts|
  {
    ts[..k] + ts[k + 1..]
  }

  // Between these two states the timer in place `k` was resumed with `cause` and taken out of
  // the list; all other timers kept their places, and no parked thread lacks a notification.
  ghost predicate TakenOut(s: Service, s': Service, k: nat, cause: Cause) {
    && k < |s.timers|
    && s'.timers == Without(s.timers, k)
    && s'.resumed == s.resumed + [Resumption(s.timers[k], cause, s.now)]
    && s'.staged == s.staged && s'.started == s.started && s'.pc == s.pc && s'.defect == s.defect
    && s'.running == s.running && s'.closing == s.closing && s'.deadline == s.deadline && s'.now == s.now
    && (s'.pc.Parked? ==> s'.awake)
  }

  // ---- Cancel ----

  /** When cancel returns, it answers true exactly for a pending timer. */
  lemma CancelAnswers(busy: nat, acts: seq<Action>, valid: bool, sid: nat)
    requires CancelReturns(After(busy, acts), valid, sid)
    ensures CancelFinds(After(busy, acts), valid, sid) <==> valid && Running(After(busy, acts), sid)
    ensures Enabled(After(busy, acts), DoCancel(valid, sid))
            ==> (After(busy, acts + [DoCancel(valid, sid)]).defect.None?)
  {
    AfterThen(busy, acts, DoCancel(valid, sid));
    RunsKeepInv(busy, acts);
    var s := After(busy, acts);
    if valid && Running(s, sid) {
      assert s.timers != [];
    }
    if CancelFinds(s, valid, sid) {
      assert s.timers[0].sid == sid;
    }
  }

  // Timer `sid` is pending and every other pending one times out after it, or as late but
  // started after it.
  ghost predicate NextDue(s: Service, sid: nat) {
    exists k :: 0 <= k < |s.timers| && s.timers[k].sid == sid
                && forall i | 0 <= i < |s.timers| && i != k :: Before(s.timers[k], s.timers[i])
  }

  lemma FirstIsNextDue(s: Service, sid: nat)
    requires Inv(s)
    ensures NextDue(s, sid) <==> s.timers != [] && s.timers[0].sid == sid
  {
    if k :| 0 <= k < |s.timers| && s.timers[k].sid == sid
            && forall i | 0 <= i < |s.timers| && i != k :: Before(s.timers[k], s.timers[i]) {
      if k != 0 {
        assert Before(s.timers[k], s.timers[0]) && Before(s.timers[0], s.timers[k]);
      }
    }
  }

  /** A cancel returns exactly for a void sid, with nothing pending, and for the timer that is
      due next; with any other sid it spins. */
  lemma CancelReturnsExactlyWhen(busy: nat, acts: seq<Action>, valid: bool, sid: nat)
    requires Enabled(After(busy, acts), DoCancel(valid, sid))
    ensures After(busy, acts + [DoCancel(valid, sid)]).defect.None?
            <==> !valid || After(busy, acts).timers == [] || NextDue(After(busy, acts), sid)
  {
    AfterThen(busy, acts, DoCancel(valid, sid));
    RunsKeepInv(busy, acts);
    FirstIsNextDue(After(busy, acts), sid);
  }

  // The pending timer `sid`, and no other, was resumed as cancelled and is not running.
  ghost predicate CalledOff(s: Service, s': Service, sid: nat) {
    !Running(s', sid) && exists k: nat :: TakenOut(s, s', k, Cancelled) && s.timers[k].sid == sid
  }

  lemma FirstCalledOff(s: Service, sid: nat)
    requires Inv(s) && CancelFinds(s, true, sid)
    ensures CalledOff(s, Cancel(s, true, sid), sid)
  {
    var s' := Cancel(s, true, sid);
    assert Without(s.timers, 0) == s.timers[1..];
    assert TakenOut(s, s', 0, Cancelled);
    assert forall j | 0 <= j < |s'.timers| :: s'.timers[j] == s.timers[j + 1];
  }

  lemma FoundFirst(s: Service, valid: bool, sid: nat)
    requires CancelReturns(s, valid, sid) && valid && Running(s, sid)
    ensures CancelFinds(s, valid, sid)
  {
    var i :| 0 <= i < |s.timers| && s.timers[i].sid == sid;
    assert s.timers != [];
  }

  /** A cancel that returns takes exactly the pending timer of that sid out of the list and
      resumes it as cancelled, after which it is not running; if there is none it does nothing. */
  lemma CancelTakesEffect(busy: nat, acts: seq<Action>, valid: bool, sid: nat)
    requires Enabled(After(busy, acts), DoCancel(valid, sid))
    requires After(busy, acts + [DoCancel(valid, sid)]).defect.None?
    ensures var s, s' := After(busy, acts), After(busy, acts + [DoCancel(valid, sid)]);
            if valid && Running(s, sid) then CalledOff(s, s', sid) else s' == s
  {
    AfterThen(busy, acts, DoCancel(valid, sid));
    RunsKeepInv(busy, acts);
    if valid && Running(After(busy, acts), sid) {
      FoundFirst(After(busy, acts), valid, sid);
      FirstCalledOff(After(busy, acts), sid);
    } else if CancelReturns(After(busy, acts), valid, sid) {
      CancelAnswers(busy, acts, valid, sid);
    }
  }

  // ---- Resumed once ----

  lemma {:induction false} ResumedOnly(busy: nat, acts: seq<Action>, p: nat)
    requires p <= |acts|
    ensures After(busy, acts[..p]).resumed <= After(busy, acts).resumed
    decreases |acts|
  {
    if p == |acts| {
      assert acts[..p] == acts;
    } else {
      var front, last := acts[..|acts| - 1], acts[|acts| - 1];
      assert front[..p] == acts[..p] && front + [last] == acts;
      ResumedOnly(busy, front, p);
      ResumesMore(After(busy, front), last, busy);
      AfterThen(busy, front, last);
    }
  }

  lemma ResumesMore(s: Service, a: Action, busy: nat)
    ensures s.resumed <= Step(s, a, busy).resumed
  {
  }

  lemma {:induction false} Counted(ts: seq<Timer>, i: nat)
    requires i < |ts|
    ensures CountTimer(ts, ts[i]) >= 1
    decreases |ts|
  {
    if i == |ts| - 1 {
    } else {
      Counted(ts[..|ts| - 1], i);
    }
  }

  lemma {:induction false} CountedTwice(ts: seq<Timer>, i: nat, j: nat)
    requires i < j < |ts| && ts[i] == ts[j]
    ensures CountTimer(ts, ts[i]) >= 2
    decreases |ts|
  {
    if j == |ts| - 1 {
      Counted(ts[..|ts| - 1], i);
    } else {
      CountedTwice(ts[..|ts| - 1], i, j);
    }
  }

  /** No timer is resumed twice in any run. */
  lemma ResumedOnce(busy: nat, acts: seq<Action>, i: nat, j: nat)
    requires i < j < |After(busy, acts).resumed|
    ensures After(busy, acts).resumed[i].timer != After(busy, acts).resumed[j].timer
  {
    var rs := After(busy, acts).resumed;
    if rs[i].timer == rs[j].timer {
      CountedTwice(ResumedTimers(rs), i, j);
      EveryTimerOnce(busy, acts, rs[i].timer);
      assert false;
    }
  }

  // A timer once resumed is resumed for no other cause, and is neither pending nor staged.
  lemma ResumedForGood(busy: nat, acts: seq<Action>, i: nat)
    requires i < |After(busy, acts).resumed|
    ensures var s := After(busy, acts); var t := s.resumed[i].timer;
            && t !in s.timers && t !in s.staged
            && (forall j | 0 <= j < |s.resumed| && s.resumed[j].timer == t :: j == i)
  {
    var s := After(busy, acts);
    var t := s.resumed[i].timer;
    RunsKeepInv(busy, acts);
    EveryTimerOnce(busy, acts, t);
    assert ResumedTimers(s.resumed)[i] == t;
    Counted(ResumedTimers(s.resumed), i);
    if k :| 0 <= k < |s.timers| && s.timers[k] == t { Counted(s.timers, k); assert false; }
    if k :| 0 <= k < |s.staged| && s.staged[k] == t { Counted(s.staged, k); assert false; }
    forall j: nat | j < |s.resumed| && s.resumed[j].timer == t ensures j == i {
      if j < i { ResumedOnce(busy, acts, j, i); }
      if i < j { ResumedOnce(busy, acts, i, j); }
    }
  }

  // In state `s` timer `t` is not pending, is not about to fire, and all it ever got is
  // one resumption, as cancelled.
  ghost predicate CancelledForGood(s: Service, t: Timer) {
    && t !in s.timers && t !in s.staged
    && (exists i :: 0 <= i < |s.resumed| && s.resumed[i].timer == t)
    && (forall i | 0 <= i < |s.resumed| && s.resumed[i].timer == t :: s.resumed[i].cause == Cancelled)
  }

  /** A timer for which cancel answered true never fires, whatever happens afterwards. */
  lemma CancelledNeverFires(busy: nat, acts: seq<Action>, p: nat, sid: nat)
    requires p < |acts| && acts[p] == DoCancel(true, sid) && Enabled(After(busy, acts[..p]), acts[p])
    requires Running(After(busy, acts[..p]), sid) && After(busy, acts[..p + 1]).defect.None?
    ensures exists t :: t in After(busy, acts[..p]).timers && t.sid == sid && CancelledForGood(After(busy, acts), t)
  {
    assert acts[..p + 1] == acts[..p] + [DoCancel(true, sid)];
    CancelTakesEffect(busy, acts[..p], true, sid);
    var s, s' := After(busy, acts[..p]), After(busy, acts[..p + 1]);
    var k: nat :| TakenOut(s, s', k, Cancelled) && s.timers[k].sid == sid;
    ResumedOnly(busy, acts, p + 1);
    assert After(busy, acts).resumed[|s.resumed|] == s'.resumed[|s.resumed|];
    ResumedForGood(busy, acts, |s.resumed|);
    assert CancelledForGood(After(busy, acts), s.timers[k]);
  }

  // ---- Start ----

  lemma {:induction false} InsertedAt(ts: seq<Timer>, t: Timer) returns (k: nat)
    ensures k <= |ts| && Insert(ts, t) == ts[..k] + [t] + ts[k..]
    decreases |ts|
  {
    if ts == [] || ts[|ts| - 1].timeout <= t.timeout {
      k := |ts|;
      assert ts[..k] == ts && ts[k..] == [];
    } else {
      k := InsertedAt(ts[..|ts| - 1], t);
      assert ts[k..] == ts[..|ts| - 1][k..] + [ts[|ts| - 1]];
    }
  }

  // The only difference between the lists is that `t` is in place `k` of the later one.
  predicate PutIn(before: seq<Timer>, after: seq<Timer>, k: nat, t: Timer) {
    k <= |before| && after == before[..k] + [t] + before[k..]
  }

  // What start() of `t` achieves between two states: `t` is running, in its place by timeout,
  // with all others kept; the service has a thread, not asleep without a notification.
  ghost predicate Begun(s: Service, s': Service, t: Timer) {
    && Running(s', t.sid) && (exists k: nat :: PutIn(s.timers, s'.timers, k, t))
    && s'.started == s.started + [t] && s'.resumed == s.resumed && s'.staged == s.staged
    && !s'.pc.NotStarted? && (s'.pc.Parked? ==> s'.awake) && (!s.pc.NotStarted? ==> s'.pc == s.pc)
  }

  lemma StartBegins(s: Service, sid: nat, timeout: int)
    requires Inv(s) && Enabled(s, DoStart(sid, timeout))
    ensures Begun(s, Start(s, sid, timeout), Timer(sid, timeout, |s.started|))
  {
    var s' := Start(s, sid, timeout);
    var t := Timer(sid, timeout, |s.started|);
    PushAndSort(s.timers, t);
    var k := InsertedAt(s.timers, t);
    assert PutIn(s.timers, s'.timers, k, t);
    assert s'.timers[k] == t;
  }

  /** A timer that is started is running, in its place by timeout, and wakes the thread. */
  lemma StartTakesEffect(busy: nat, acts: seq<Action>, sid: nat, timeout: int)
    requires Enabled(After(busy, acts), DoStart(sid, timeout))
    ensures Begun(After(busy, acts), After(busy, acts + [DoStart(sid, timeout)]),
                  Timer(sid, timeout, |After(busy, acts).started|))
    ensures Sorted(After(busy, acts + [DoStart(sid, timeout)]).timers)
  {
    AfterThen(busy, acts, DoStart(sid, timeout));
    RunsKeepInv(busy, acts);
    RunsKeepInv(busy, acts + [DoStart(sid, timeout)]);
    StartBegins(After(busy, acts), sid, timeout);
  }

  // ---- Expiry ----

  // The next steps of a thread that does not hold the lock, reading `clock`.
  function OwnSteps(s: Service, clock: int, chosen: int): seq<Action> {
    match s.pc
    case Parked => [DoRise, DoRun(clock, chosen)]
    case BusyWaiting => [DoPoll(clock), DoRun(clock, chosen)]
    case _ => [DoRun(clock, chosen)]
  }

  lemma AfterTwo(busy: nat, acts: seq<Action>, a: Action, b: Action)
    ensures After(busy, acts + [a, b]) == Step(Step(After(busy, acts), a, busy), b, busy)
  {
    AfterThen(busy, acts, a);
    AfterThen(busy, acts + [a], b);
    assert acts + [a] + [b] == acts + [a, b];
  }

  predicate MayPass(s: Service) {
    s.defect.None? && s.running && (s.pc.Relocking? || s.pc.Parked? || s.pc.BusyWaiting?)
  }

  // A pass has staged the timers of `ts` that are due by its time, and no other.
  ghost predicate Staged(passed: Service, ts: seq<Timer>) {
    && passed.pc.Firing? && passed.staged + passed.timers == ts
    && (forall i | 0 <= i < |passed.staged| :: passed.staged[i].timeout <= passed.now)
    && (forall i | 0 <= i < |passed.timers| :: passed.timers[i].timeout > passed.now)
  }

  lemma PassStages(s: Service, clock: int, chosen: int, busy: nat)
    requires Inv(s) && s.running && s.defect.None? && s.pc.Relocking?
    requires s.timers != [] && s.timers[0].timeout <= clock
    ensures var passed := Step(s, DoRun(clock, chosen), busy);
            Staged(passed, s.timers) && passed.now >= clock && passed.resumed == s.resumed
  {
    PassStagesExactlyExpired(s, clock, chosen, busy);
  }

  // The state in which a thread, gone on by one step, makes its pass: only its place and its
  // time differ.
  lemma OneStepOn(s: Service, clock: int, busy: nat)
    requires Inv(s) && MayPass(s) && !s.pc.Relocking? && s.timers != [] && s.timers[0].timeout <= clock
    ensures var t := Step(s, if s.pc.Parked? then DoRise else DoPoll(clock), busy);
            Inv(t) && MayPass(t) && t.pc.Relocking? && t.timers == s.timers && t.resumed == s.resumed
  {
    StepKeepsInv(s, if s.pc.Parked? then DoRise else DoPoll(clock), busy);
  }

  lemma OwnStepsPass(busy: nat, acts: seq<Action>, clock: int, chosen: int)
    requires var s := After(busy, acts); MayPass(s) && s.timers != [] && s.timers[0].timeout <= clock
    ensures var s := After(busy, acts); var passed := After(busy, acts + OwnSteps(s, clock, chosen));
            Staged(passed, s.timers) && passed.now >= clock && passed.resumed == s.resumed
  {
    RunsKeepInv(busy, acts);
    var s := After(busy, acts);
    var run := DoRun(clock, chosen);
    if s.pc.Relocking? {
      AfterThen(busy, acts, run);
      PassStages(s, clock, chosen, busy);
    } else {
      var first := if s.pc.Parked? then DoRise else DoPoll(clock);
      AfterTwo(busy, acts, first, run);
      OneStepOn(s, clock, busy);
      PassStages(Step(s, first, busy), clock, chosen, busy);
    }
  }

  /** When the first timer is due, the thread's own next steps stage every timer due by then
      and no other, in order, from wherever the thread is unless it is still firing others. */
  lemma DueTimersAreStaged(busy: nat, acts: seq<Action>, clock: int, chosen: int, t: Timer)
    requires var s := After(busy, acts); MayPass(s) && t in s.timers && t.timeout <= clock
    ensures var s := After(busy, acts); var passed := After(busy, acts + OwnSteps(s, clock, chosen));
            && t in passed.staged && passed.staged + passed.timers == s.timers
            && (forall x | x in s.timers :: if x.timeout <= passed.now then x in passed.staged else x in passed.timers)
  {
    RunsKeepInv(busy, acts);
    var s := After(busy, acts);
    var i :| 0 <= i < |s.timers| && s.timers[i] == t;
    assert i > 0 ==> Before(s.timers[0], s.timers[i]);
    OwnStepsPass(busy, acts, clock, chosen);
    var passed := After(busy, acts + OwnSteps(s, clock, chosen));
    forall x | x in s.timers ensures if x.timeout <= passed.now then x in passed.staged else x in passed.timers {
      assert x in passed.staged + passed.timers;
    }
  }

  // How many staged timers were resumed since action number `p`.
  function Fires(busy: nat, acts: seq<Action>, p: nat): nat {
    if |acts| <= p then 0
    else
      var front, last := acts[..|acts| - 1], acts[|acts| - 1];
      Fires(busy, front, p) + if last.DoFire? && Enabled(After(busy, front), last) then 1 else 0
  }

  lemma FiresThen(busy: nat, front: seq<Action>, a: Action, p: nat)
    requires p <= |front|
    ensures Fires(busy, front + [a], p)
         == Fires(busy, front, p) + if a.DoFire? && Enabled(After(busy, front), a) then 1 else 0
  {
    assert (front + [a])[..|front|] == front;
  }

  // Of the timers `due`, staged when it was `now`, the first `n` have fired and the others
  // are still staged.
  ghost predicate FiredUpTo(s: Service, due: seq<Timer>, now: int, n: nat) {
    && (forall k | 0 <= k < |due| && k < n :: Resumption(due[k], Expired, now) in s.resumed)
    && (n < |due| ==> s.pc.Firing? && s.staged == due[n..] && s.now == now)
  }

  lemma FiringGoesOn(s: Service, a: Action, busy: nat, due: seq<Timer>, now: int, n: nat)
    requires ListInv(s) && FiredUpTo(s, due, now, n)
    ensures FiredUpTo(Step(s, a, busy), due, now, n + if a.DoFire? && Enabled(s, a) then 1 else 0)
  {
    ResumesMore(s, a, busy);
    var s' := Step(s, a, busy);
    if n < |due| && a.DoFire? && Enabled(s, a) {
      assert s'.resumed[|s.resumed|] == Resumption(due[n], Expired, now);
      assert due[n..][1..] == due[n + 1..];
    }
    forall r | r in s.resumed ensures r in s'.resumed {
      var i :| 0 <= i < |s.resumed| && s.resumed[i] == r;
      assert s'.resumed[i] == r;
    }
  }

  /** What is staged fires: the k-th staged timer gets true with the k-th resumption, whatever
      is started or cancelled meanwhile. */
  lemma {:induction false} StagedIsFired(busy: nat, acts: seq<Action>, p: nat)
    requires p <= |acts| && After(busy, acts[..p]).pc.Firing?
    ensures var s := After(busy, acts[..p]); FiredUpTo(After(busy, acts), s.staged, s.now, Fires(busy, acts, p))
    decreases |acts|
  {
    var s := After(busy, acts[..p]);
    if p == |acts| {
      assert acts[..p] == acts && s.staged[0..] == s.staged;
    } else {
      var front, last := acts[..|acts| - 1], acts[|acts| - 1];
      assert front[..p] == acts[..p] && front + [last] == acts;
      StagedIsFired(busy, front, p);
      FiresThen(busy, front, last, p);
      AfterThen(busy, front, last);
      RunsKeepInv(busy, front);
      FiringGoesOn(After(busy, front), last, busy, s.staged, s.now, Fires(busy, front, p));
    }
  }

  /** A busy-waiting thread that finds a timer polls on exactly while the first one is not due
      and within the window, and polling changes nothing but its time and place. */
  lemma PollAnswers(busy: nat, acts: seq<Action>, clock: int)
    requires var s := After(busy, acts); Enabled(s, DoPoll(clock)) && s.timers != []
    ensures var s, s' := After(busy, acts), After(busy, acts + [DoPoll(clock)]);
            && s'.now >= clock && s'.now >= s.now && s' == s.(now := s'.now, pc := s'.pc)
            && (s'.pc.BusyWaiting? || s'.pc.Relocking?)
            && (s'.pc.BusyWaiting? <==> 0 < s'.timers[0].timeout - s'.now <= busy)
  {
    AfterThen(busy, acts, DoPoll(clock));
  }

  /** A pass with nothing due ends in the busy-wait loop exactly within the window of the first
      timer, and asleep otherwise: until the time chosen but not past the first timeout, or
      with no timer until it is notified. */
  lemma IdlePassAnswers(busy: nat, acts: seq<Action>, clock: int, chosen: int)
    requires var s := After(busy, acts); Enabled(s, DoRun(clock, chosen)) && s.running
    requires var s := After(busy, acts); forall i | 0 <= i < |s.timers| :: s.timers[i].timeout > clock && s.timers[i].timeout > s.now
    ensures var s, s' := After(busy, acts), After(busy, acts + [DoRun(clock, chosen)]);
            && s'.timers == s.timers && s'.staged == [] && s'.resumed == s.resumed
            && (s'.pc.BusyWaiting? <==> s.timers != [] && s.timers[0].timeout - s'.now <= busy)
            && (!s'.pc.BusyWaiting? ==> s'.pc.Parked? && s'.waiting && !s'.awake)
            && (s'.pc.Parked? ==> (s'.deadline.Never? <==> s.timers == []))
            && (s'.pc.Parked? && s.timers != [] ==>
                  s'.deadline.t <= chosen && s'.deadline.t <= s.timers[0].timeout
                  && (s'.deadline.t == chosen || s'.deadline.t == s.timers[0].timeout))
  {
    AfterThen(busy, acts, DoRun(clock, chosen));
    RunsKeepInv(busy, acts);
  }

  // ---- The end ----

  /** The destructor's first part tells the thread to end, which cannot sleep through it. */
  lemma ShutdownTakesEffect(busy: nat, acts: seq<Action>)
    requires Enabled(After(busy, acts), DoShutdown)
    ensures var s, s' := After(busy, acts), After(busy, acts + [DoShutdown]);
            && s'.closing && !s'.running && (s'.pc.Parked? ==> s'.awake) && s'.pc == s.pc
            && s'.timers == s.timers && s'.staged == s.staged && s'.resumed == s.resumed
  {
    AfterThen(busy, acts, DoShutdown);
    RunsKeepInv(busy, acts);
  }

  predicate Closing(s: Service) {
    s.closing && !s.running && (s.pc.Parked? ==> s.awake)
  }

  lemma ClosingStep(s: Service, a: Action, busy: nat)
    requires Closing(s)
    ensures Closing(Step(s, a, busy))
    ensures Step(s, a, busy).started == s.started
    ensures a.DoRun? && Enabled(s, a) ==> Step(s, a, busy).pc.Exited?
    ensures s.pc.Exited? ==> Step(s, a, busy).pc.Exited?
  {
  }

  lemma ClosingThen(busy: nat, front: seq<Action>, a: Action)
    requires Closing(After(busy, front))
    ensures Closing(After(busy, front + [a])) && After(busy, front + [a]).started == After(busy, front).started
    ensures a.DoRun? && Enabled(After(busy, front), a) ==> After(busy, front + [a]).pc.Exited?
    ensures After(busy, front).pc.Exited? ==> After(busy, front + [a]).pc.Exited?
  {
    AfterThen(busy, front, a);
    ClosingStep(After(busy, front), a, busy);
  }

  /** After the shutdown no timer is started any more, the thread never sleeps un-notified, and
      its next pass is its last. */
  lemma {:induction false} ShutdownLasts(busy: nat, acts: seq<Action>, p: nat)
    requires p <= |acts| && Closing(After(busy, acts[..p]))
    ensures Closing(After(busy, acts)) && After(busy, acts).started == After(busy, acts[..p]).started
    ensures (exists k | p <= k < |acts| :: acts[k].DoRun? && Enabled(After(busy, acts[..k]), acts[k]))
            ==> After(busy, acts).pc.Exited?
    decreases |acts|
  {
    if p == |acts| {
      assert acts[..p] == acts;
    } else {
      var front, last := acts[..|acts| - 1], acts[|acts| - 1];
      assert front[..p] == acts[..p] && front + [last] == acts;
      ShutdownLasts(busy, front, p);
      ClosingThen(busy, front, last);
      if k :| p <= k < |front| && acts[k].DoRun? && Enabled(After(busy, acts[..k]), acts[k]) {
        assert front[k] == acts[k] && front[..k] == acts[..k];
      }
    }
  }

  // The timers `ts` resumed as destroyed at time `at`, in order.
  function Dropped(ts: seq<Timer>, at: int): seq<Resumption> {
    seq(|ts|, i requires 0 <= i < |ts| => Resumption(ts[i], Destroyed, at))
  }

  // The destructor has joined the thread, if there was one.
  predicate Joined(s: Service) {
    s.closing && s.defect.None? && (s.pc.Exited? || s.pc.NotStarted?)
  }

  lemma DropOne(busy: nat, acts: seq<Action>)
    requires Joined(After(busy, acts)) && After(busy, acts).timers != []
    ensures var s, s' := After(busy, acts), After(busy, acts + [DoDrop]);
            && Joined(s') && s'.timers == s.timers[1..] && s'.staged == s.staged && s'.now == s.now
            && s'.resumed == s.resumed + [Resumption(s.timers[0], Destroyed, s.now)]
  {
    AfterThen(busy, acts, DoDrop);
  }

  lemma DroppedFirst(rs: seq<Resumption>, ts: seq<Timer>, at: int)
    requires ts != []
    ensures rs + [Resumption(ts[0], Destroyed, at)] + Dropped(ts[1..], at) == rs + Dropped(ts, at)
  {
  }

  lemma DropAgain(acts: seq<Action>, n: nat)
    ensures acts + [DoDrop] + seq(n, _ => DoDrop) == acts + seq(n + 1, _ => DoDrop)
  {
  }

  lemma {:induction false} DropsMany(busy: nat, acts: seq<Action>, n: nat)
    requires Joined(After(busy, acts)) && n == |After(busy, acts).timers|
    ensures var s := After(busy, acts); var s' := After(busy, acts + seq(n, _ => DoDrop));
            s'.timers == [] && s'.staged == s.staged && s'.resumed == s.resumed + Dropped(s.timers, s.now)
    decreases n
  {
    var s := After(busy, acts);
    if n == 0 {
      assert acts + seq(0, _ => DoDrop) == acts;
      assert s.resumed + Dropped([], s.now) == s.resumed;
    } else {
      DropOne(busy, acts);
      DropsMany(busy, acts + [DoDrop], n - 1);
      DropAgain(acts, n - 1);
      DroppedFirst(s.resumed, s.timers, s.now);
    }
  }

  /** Once the thread has ended, the destructor's second part resumes all pending timers as
      destroyed, in order, and leaves none. */
  lemma DropsAll(busy: nat, acts: seq<Action>)
    requires Joined(After(busy, acts))
    ensures var s := After(busy, acts); var s' := After(busy, acts + seq(|s.timers|, _ => DoDrop));
            s'.timers == [] && s'.staged == [] && s'.resumed == s.resumed + Dropped(s.timers, s.now)
  {
    RunsKeepInv(busy, acts);
    DropsMany(busy, acts, |After(busy, acts).timers|);
  }

  // ---- The default algorithm ----

  /** With the default algorithm a sleep that begins more than `long` before the timer ends
      `long` before it; a later one lasts at most `early`, and the last before the window ends
      when the window opens. */
  lemma SleepsEndEarly(c: Thresholds, s: Service, clock: int)
    requires Sane(c) && Waits(c, s, clock)
    ensures var asleep := Pass(c, s, clock); var due := s.timers[0].timeout;
            && asleep.deadline.Until? && asleep.now < asleep.deadline.t
            && (if due - asleep.now > c.long then due - asleep.deadline.t == c.long
                else if due - asleep.now < c.early then due - asleep.deadline.t == c.busyWait
                else asleep.deadline.t - asleep.now == c.early)
  {
    SleepKeepsTimers(c, s, clock);
    DefaultTimeoutIsBetween(c, Later(s.now, clock), s.timers[0].timeout);
  }
}
