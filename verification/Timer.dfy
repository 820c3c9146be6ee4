/** The timer service: a list of timers sorted by timeout, a thread that fires the
    expired prefix, and the deadline it sleeps until.  Times are ticks.

    Two defects of the original are part of the model: cancel() loops forever, holding
    the lock, unless the timer it looks for is the first; and the busy-wait loop reads
    the front of a list that cancel() may have emptied. */
module TimerService {

  // `order` numbers the timers as they were started.
  datatype Timer = Timer(sid: nat, timeout: int, order: nat)

  datatype Cause = Expired | Cancelled | Destroyed

  // An awaitable that was resumed, with the time the service thread knew.  It gets true
  // exactly when the cause is expiry.
  datatype Resumption = Resumption(timer: Timer, cause: Cause, at: int)

  datatype Deadline = Never | Until(t: int)

  datatype Pc =
    | NotStarted
    | Relocking      // about to enter the loop with the lock
    | Parked         // waiting on the condition variable
    | Firing         // resuming staged awaitables, unlocked
    | BusyWaiting    // polling the time, unlocked between checks
    | Exited

  datatype Defect = None | CancelSpins | FrontOfEmpty

  datatype Service = Service(
    running: bool,
    waiting: bool,
    timers: seq<Timer>,
    staged: seq<Timer>,     // timed_out
    pc: Pc,
    deadline: Deadline,
    awake: bool,            // a parked thread was notified
    now: int,
    closing: bool,
    defect: Defect,
    started: seq<Timer>,
    resumed: seq<Resumption>)

  function Init(): Service {
    Service(false, false, [], [], NotStarted, Never, false, 0, false, None, [], [])
  }

  // ---- The sorted list ----

  /** Ordered by timeout, and by start among equal timeouts. */
  predicate Before(a: Timer, b: Timer) {
    a.timeout < b.timeout || (a.timeout == b.timeout && a.order < b.order)
  }

  ghost predicate Sorted(ts: seq<Timer>) {
    forall i, j | 0 <= i < j < |ts| :: Before(ts[i], ts[j])
  }

  // Puts `t` behind every timer that does not time out after it.
  function Insert(ts: seq<Timer>, t: Timer): (r: seq<Timer>)
    ensures |r| == |ts| + 1
  {
    if ts == [] || ts[|ts| - 1].timeout <= t.timeout then ts + [t]
    else Insert(ts[..|ts| - 1], t) + [ts[|ts| - 1]]
  }

  // The list library's stable sort by timeout.
  function StableSort(ts: seq<Timer>): (r: seq<Timer>)
    ensures |r| == |ts|
  {
    if ts == [] then [] else Insert(StableSort(ts[..|ts| - 1]), ts[|ts| - 1])
  }

  lemma {:induction false} InsertKeepsSorted(ts: seq<Timer>, t: Timer)
    requires Sorted(ts) && forall i | 0 <= i < |ts| :: ts[i].order < t.order
    ensures Sorted(Insert(ts, t))
    ensures forall x | x in Insert(ts, t) :: x == t || x in ts
    decreases |ts|
  {
    if ts != [] && ts[|ts| - 1].timeout > t.timeout {
      var front, last := ts[..|ts| - 1], ts[|ts| - 1];
      InsertKeepsSorted(front, t);
      forall x | x in Insert(front, t) ensures Before(x, last) {
        if x in front { var i :| 0 <= i < |front| && front[i] == x; }
      }
    }
  }

  /** A sorted list is a fixed point of the sort, so sorting after a push inserts. */
  lemma {:induction false} SortOfSorted(ts: seq<Timer>)
    requires Sorted(ts)
    ensures StableSort(ts) == ts
    decreases |ts|
  {
    if ts == [] {
    } else {
      SortOfSorted(ts[..|ts| - 1]);
      assert ts == ts[..|ts| - 1] + [ts[|ts| - 1]];
    }
  }

  lemma PushAndSort(ts: seq<Timer>, t: Timer)
    requires Sorted(ts)
    ensures StableSort(ts + [t]) == Insert(ts, t)
  {
    SortOfSorted(ts);
    assert (ts + [t])[..|ts|] == ts;
  }

  function CountTimer(ts: seq<Timer>, t: Timer): nat {
    if ts == [] then 0 else CountTimer(ts[..|ts| - 1], t) + if ts[|ts| - 1] == t then 1 else 0
  }

  lemma {:induction false} CountAppend(a: seq<Timer>, b: seq<Timer>, t: Timer)
    ensures CountTimer(a + b, t) == CountTimer(a, t) + CountTimer(b, t)
    decreases |b|
  {
    if b == [] {
      assert a + b == a;
    } else {
      assert (a + b)[..|a + b| - 1] == a + b[..|b| - 1];
      CountAppend(a, b[..|b| - 1], t);
    }
  }

  lemma {:induction false} CountInsert(ts: seq<Timer>, t: Timer, x: Timer)
    ensures CountTimer(Insert(ts, t), x) == CountTimer(ts, x) + CountTimer([t], x)
    decreases |ts|
  {
    CountAppend(ts, [t], x);
    if ts != [] && ts[|ts| - 1].timeout > t.timeout {
      var front, last := ts[..|ts| - 1], ts[|ts| - 1];
      CountInsert(front, t, x);
      CountAppend(Insert(front, t), [last], x);
      CountAppend(front, [last], x);
      assert ts == front + [last];
    }
  }

  // ---- The operations ----

  function Notify(s: Service): Service {
    if s.waiting then s.(waiting := false, awake := true) else s
  }

  function Start(s: Service, sid: nat, timeout: int): Service {
    var t := Timer(sid, timeout, |s.started|);
    Notify(s.(running := true, pc := if s.running then s.pc else Relocking,
              timers := StableSort(s.timers + [t]), started := s.started + [t]))
  }

  // Whether the search loop of cancel() ends: it never looks past the first timer.
  predicate CancelReturns(s: Service, valid: bool, sid: nat) {
    !valid || !s.running || s.timers == [] || s.timers[0].sid == sid
  }

  predicate CancelFinds(s: Service, valid: bool, sid: nat) {
    valid && s.running && s.timers != [] && s.timers[0].sid == sid
  }

  function Cancel(s: Service, valid: bool, sid: nat): Service {
    if !CancelReturns(s, valid, sid) then s.(defect := CancelSpins)
    else if CancelFinds(s, valid, sid) then
      Notify(s.(timers := s.timers[1..], resumed := s.resumed + [Resumption(s.timers[0], Cancelled, s.now)]))
    else s
  }

  predicate Running(s: Service, sid: nat) {
    s.running && exists i :: 0 <= i < |s.timers| && s.timers[i].sid == sid
  }

  // The number of timers at the front that have timed out.
  function Expiring(ts: seq<Timer>, now: int): (n: nat)
    ensures n <= |ts|
  {
    if ts == [] || ts[0].timeout > now then 0 else 1 + Expiring(ts[1..], now)
  }

  function Later(now: int, clock: int): int {
    if clock > now then clock else now
  }

  function Earlier(a: int, b: int): int {
    if a < b then a else b
  }

  /** The service thread, holding the lock, from the head of its loop to where it gives the
      lock up.  `clock` is the time it reads, `chosen` what the timeout algorithm answers. */
  function RunLocked(s: Service, clock: int, chosen: int, busy: nat): Service {
    if !s.running then s.(pc := Exited)
    else if s.timers == [] then s.(waiting := true, awake := false, deadline := Never, pc := Parked)
    else
      var now := Later(s.now, clock);
      var n := Expiring(s.timers, now);
      var next := s.timers[0].timeout;
      if n > 0 then s.(now := now, staged := s.timers[..n], timers := s.timers[n..], pc := Firing)
      else if next - now <= busy then s.(now := now, pc := BusyWaiting)
      else s.(now := now, waiting := true, awake := false, deadline := Until(Earlier(chosen, next)), pc := Parked)
  }

  // Resumes the first staged awaitable; after the last one the thread relocks.
  function Fire(s: Service): Service
    requires s.staged != []
  {
    s.(staged := s.staged[1..], pc := if |s.staged| == 1 then Relocking else Firing,
       resumed := s.resumed + [Resumption(s.staged[0], Expired, s.now)])
  }

  // One round of the busy-wait loop.
  function Poll(s: Service, clock: int, busy: nat): Service {
    var now := Later(s.now, clock);
    if s.timers == [] then s.(now := now, defect := FrontOfEmpty)
    else
      var next := s.timers[0].timeout;
      s.(now := now, pc := if now < next && next - now <= busy then BusyWaiting else Relocking)
  }

  function Shutdown(s: Service): Service {
    Notify(s.(running := false, closing := true))
  }

  // The destructor, after it joined the thread, takes the timers that are left.
  function DropFirst(s: Service): Service
    requires s.timers != []
  {
    s.(timers := s.timers[1..], resumed := s.resumed + [Resumption(s.timers[0], Destroyed, s.now)])
  }

  // ---- Runs ----

  datatype Action =
    | DoStart(sid: nat, timeout: int)
    | DoCancel(valid: bool, sid: nat)
    | DoRun(clock: int, chosen: int)
    | DoFire
    | DoPoll(clock: int)
    | DoRise           // the thread leaves its wait: notified, timed out, or spuriously
    | DoShutdown
    | DoDrop

  predicate Enabled(s: Service, a: Action) {
    match a
    // A pending timer keeps its sid alive, so a new one is different.
    case DoStart(sid, _) => s.defect.None? && !s.closing && forall i | 0 <= i < |s.timers| :: s.timers[i].sid != sid
    case DoCancel(_, _) => s.defect.None? && !s.closing
    case DoRun(_, _) => s.defect.None? && s.pc.Relocking?
    case DoFire => !s.defect.FrontOfEmpty? && s.pc.Firing? && s.staged != []
    case DoPoll(_) => s.defect.None? && s.pc.BusyWaiting?
    case DoRise => s.defect.None? && s.pc.Parked?
    case DoShutdown => s.defect.None? && !s.closing
    case DoDrop => s.defect.None? && s.closing && (s.pc.Exited? || s.pc.NotStarted?) && s.timers != []
  }

  function Step(s: Service, a: Action, busy: nat): Service {
    if !Enabled(s, a) then s
    else
      match a
      case DoStart(sid, timeout) => Start(s, sid, timeout)
      case DoCancel(valid, sid) => Cancel(s, valid, sid)
      case DoRun(clock, chosen) => RunLocked(s, clock, chosen, busy)
      case DoFire => Fire(s)
      case DoPoll(clock) => Poll(s, clock, busy)
      case DoRise => s.(pc := Relocking, awake := false)
      case DoShutdown => Shutdown(s)
      case DoDrop => DropFirst(s)
  }

  function After(busy: nat, acts: seq<Action>): Service {
    if acts == [] then Init() else Step(After(busy, acts[..|acts| - 1]), acts[|acts| - 1], busy)
  }

  // ---- Invariants ----

  /** The list is sorted, and holds timers that were started, with distinct sids. */
  ghost predicate ListInv(s: Service) {
    && Sorted(s.timers)
    && (forall i | 0 <= i < |s.timers| :: s.timers[i].order < |s.started|)
    && DistinctSids(s.timers)
    && (!s.running && !s.closing ==> s.timers == [] && s.pc.NotStarted?)
    && (s.pc.NotStarted? ==> !s.running && s.timers == [])
  }

  /** The thread never oversleeps: parked without a pending notification it has a deadline
      no later than any pending timeout, and none only if nothing is pending. */
  ghost predicate SleepInv(s: Service) {
    && (s.pc.Parked? && !s.awake ==>
          && s.waiting && s.running
          && (s.deadline.Never? ==> s.timers == [])
          && (s.deadline.Until? ==> forall i | 0 <= i < |s.timers| :: s.deadline.t <= s.timers[i].timeout))
  }

  /** Never early: staged timers have timed out, and so had every one that got true. */
  ghost predicate NeverEarly(s: Service) {
    && (forall i | 0 <= i < |s.staged| :: s.staged[i].timeout <= s.now)
    && (s.staged != [] <==> s.pc.Firing?)
    && (forall i | 0 <= i < |s.resumed| && s.resumed[i].cause.Expired? ::
          s.resumed[i].timer.timeout <= s.resumed[i].at <= s.now)
  }

  function ResumedTimers(rs: seq<Resumption>): seq<Timer> {
    seq(|rs|, i requires 0 <= i < |rs| => rs[i].timer)
  }

  /** Exactly once: every started timer is pending, staged, or was resumed, and only once. */
  ghost predicate ExactlyOnce(s: Service) {
    && (forall t :: CountTimer(s.started, t)
          == CountTimer(s.timers, t) + CountTimer(s.staged, t) + CountTimer(ResumedTimers(s.resumed), t))
    && (forall i | 0 <= i < |s.started| :: s.started[i].order == i)
  }

  ghost predicate Inv(s: Service) {
    ListInv(s) && SleepInv(s) && NeverEarly(s) && ExactlyOnce(s)
  }

  /** The expired timers are exactly the first `Expiring` ones of a sorted list. */
  lemma {:induction false} ExpiringIsExact(ts: seq<Timer>, now: int)
    requires Sorted(ts)
    ensures var n := Expiring(ts, now);
            && (forall i | 0 <= i < n :: ts[i].timeout <= now)
            && (forall i | n <= i < |ts| :: ts[i].timeout > now)
    decreases |ts|
  {
    if ts != [] && ts[0].timeout <= now {
      assert forall i | 0 < i < |ts| :: ts[i] == ts[1..][i - 1];
      ExpiringIsExact(ts[1..], now);
    }
  }

  // What a pass does to the list, apart from its other effects.
  lemma PassSplits(s: Service, clock: int, chosen: int, busy: nat)
    requires s.running && s.staged == []
    ensures var s' := RunLocked(s, clock, chosen, busy);
            var n := Expiring(s.timers, Later(s.now, clock));
            && s'.staged == s.timers[..n] && s'.timers == s.timers[n..]
            && (s.timers != [] ==> s'.now == Later(s.now, clock))
            && s'.started == s.started && s'.resumed == s.resumed && s'.running && s'.closing == s.closing
            && !s'.pc.NotStarted?
  {
    assert s.timers[0..] == s.timers;
  }

  /** A pass of the service thread stages exactly the timers that have timed out, in timeout
      order and, among equal timeouts, in the order they were started. */
  lemma PassStagesExactlyExpired(s: Service, clock: int, chosen: int, busy: nat)
    requires Sorted(s.timers) && s.running && s.staged == []
    ensures var s' := RunLocked(s, clock, chosen, busy);
            && s'.staged + s'.timers == s.timers && Sorted(s'.staged)
            && (forall i | 0 <= i < |s'.staged| :: s'.staged[i].timeout <= s'.now)
            && (forall i | 0 <= i < |s'.timers| :: s'.timers[i].timeout > s'.now)
  {
    PassSplits(s, clock, chosen, busy);
    ExpiringIsExact(s.timers, Later(s.now, clock));
  }

  ghost predicate DistinctSids(ts: seq<Timer>) {
    forall i, j | 0 <= i < j < |ts| :: ts[i].sid != ts[j].sid
  }

  lemma {:induction false} InsertKeepsDistinct(ts: seq<Timer>, t: Timer)
    requires DistinctSids(ts) && forall i | 0 <= i < |ts| :: ts[i].sid != t.sid
    ensures DistinctSids(Insert(ts, t))
    ensures forall x | x in Insert(ts, t) :: x == t || x in ts
    decreases |ts|
  {
    if ts != [] && ts[|ts| - 1].timeout > t.timeout {
      var front, last := ts[..|ts| - 1], ts[|ts| - 1];
      InsertKeepsDistinct(front, t);
      forall x | x in Insert(front, t) ensures x.sid != last.sid {
        if x in front { var i :| 0 <= i < |front| && front[i] == x; }
      }
    }
  }

  lemma InsertKeepsOrders(ts: seq<Timer>, t: Timer)
    requires Sorted(ts) && forall i | 0 <= i < |ts| :: ts[i].order < t.order
    ensures forall i | 0 <= i < |Insert(ts, t)| :: Insert(ts, t)[i].order <= t.order
  {
    InsertKeepsSorted(ts, t);
    forall i | 0 <= i < |Insert(ts, t)| ensures Insert(ts, t)[i].order <= t.order {
      assert Insert(ts, t)[i] in Insert(ts, t);
    }
  }

  lemma StartKeepsList(s: Service, sid: nat, timeout: int)
    requires ListInv(s) && Enabled(s, DoStart(sid, timeout))
    ensures ListInv(Start(s, sid, timeout))
  {
    var t := Timer(sid, timeout, |s.started|);
    PushAndSort(s.timers, t);
    InsertKeepsSorted(s.timers, t);
    InsertKeepsDistinct(s.timers, t);
    InsertKeepsOrders(s.timers, t);
  }

  lemma StartCounts(ts: seq<Timer>, started: seq<Timer>, t: Timer, x: Timer)
    requires Sorted(ts)
    ensures CountTimer(started + [t], x) - CountTimer(started, x)
         == CountTimer(StableSort(ts + [t]), x) - CountTimer(ts, x)
  {
    PushAndSort(ts, t);
    CountInsert(ts, t, x);
    CountAppend(started, [t], x);
  }

  lemma StartKeepsOnce(s: Service, sid: nat, timeout: int)
    requires ListInv(s) && ExactlyOnce(s)
    ensures ExactlyOnce(Start(s, sid, timeout))
  {
    var t := Timer(sid, timeout, |s.started|);
    var s' := Start(s, sid, timeout);
    assert s'.timers == StableSort(s.timers + [t]) && s'.started == s.started + [t];
    assert s'.staged == s.staged && s'.resumed == s.resumed;
    forall x: Timer
      ensures CountTimer(s'.started, x) - CountTimer(s.started, x) == CountTimer(s'.timers, x) - CountTimer(s.timers, x)
    {
      StartCounts(s.timers, s.started, t, x);
    }
  }

  lemma StartKeepsInv(s: Service, sid: nat, timeout: int)
    requires Inv(s) && Enabled(s, DoStart(sid, timeout))
    ensures Inv(Start(s, sid, timeout))
  {
    StartKeepsList(s, sid, timeout);
    StartKeepsOnce(s, sid, timeout);
    StartSleeps(s, sid, timeout);
  }

  lemma StartSleeps(s: Service, sid: nat, timeout: int)
    requires ListInv(s) && SleepInv(s)
    ensures SleepInv(Start(s, sid, timeout))
  {
  }

  lemma ResumedAppend(rs: seq<Resumption>, r: Resumption, x: Timer)
    ensures CountTimer(ResumedTimers(rs + [r]), x) == CountTimer(ResumedTimers(rs), x) + CountTimer([r.timer], x)
  {
    assert ResumedTimers(rs + [r]) == ResumedTimers(rs) + [r.timer];
    CountAppend(ResumedTimers(rs), [r.timer], x);
  }

  lemma CountFirst(ts: seq<Timer>, x: Timer)
    requires ts != []
    ensures CountTimer(ts, x) == CountTimer([ts[0]], x) + CountTimer(ts[1..], x)
  {
    assert ts == [ts[0]] + ts[1..];
    CountAppend([ts[0]], ts[1..], x);
  }

  // Taking the first pending timer and resuming it, as cancel() and the destructor do.
  lemma TakeFirstKeepsOnce(s: Service, cause: Cause)
    requires ExactlyOnce(s) && s.timers != []
    ensures ExactlyOnce(s.(timers := s.timers[1..], resumed := s.resumed + [Resumption(s.timers[0], cause, s.now)]))
  {
    var r := Resumption(s.timers[0], cause, s.now);
    forall x: Timer
      ensures CountTimer(s.timers, x) - CountTimer(s.timers[1..], x)
           == CountTimer(ResumedTimers(s.resumed + [r]), x) - CountTimer(ResumedTimers(s.resumed), x)
    {
      CountFirst(s.timers, x);
      ResumedAppend(s.resumed, r, x);
    }
  }

  lemma CancelKeepsInv(s: Service, valid: bool, sid: nat)
    requires Inv(s)
    ensures Inv(Cancel(s, valid, sid))
  {
    if CancelFinds(s, valid, sid) {
      TakeFirstKeepsOnce(s, Cancelled);
    }
  }

  lemma RunKeepsOnce(s: Service, clock: int, chosen: int, busy: nat)
    requires s.running && s.staged == [] && ExactlyOnce(s)
    ensures ExactlyOnce(RunLocked(s, clock, chosen, busy))
  {
    var s' := RunLocked(s, clock, chosen, busy);
    var n := Expiring(s.timers, Later(s.now, clock));
    PassSplits(s, clock, chosen, busy);
    forall x: Timer
      ensures CountTimer(s'.timers, x) + CountTimer(s'.staged, x) == CountTimer(s.timers, x) + CountTimer(s.staged, x)
    {
      assert s.timers[..n] + s.timers[n..] == s.timers;
      CountAppend(s.timers[..n], s.timers[n..], x);
    }
  }

  lemma RunKeepsInv(s: Service, clock: int, chosen: int, busy: nat)
    requires Inv(s) && s.pc.Relocking?
    ensures Inv(RunLocked(s, clock, chosen, busy))
  {
    if s.running {
      RunKeepsOnce(s, clock, chosen, busy);
      RunNeverEarly(s, clock, chosen, busy);
      RunKeepsList(s, clock, chosen, busy);
      RunSleeps(s, clock, chosen, busy);
    }
  }

  lemma RunNeverEarly(s: Service, clock: int, chosen: int, busy: nat)
    requires Sorted(s.timers) && s.running && NeverEarly(s) && s.pc.Relocking?
    ensures NeverEarly(RunLocked(s, clock, chosen, busy))
  {
    PassSplits(s, clock, chosen, busy);
    ExpiringIsExact(s.timers, Later(s.now, clock));
  }

  lemma RunKeepsList(s: Service, clock: int, chosen: int, busy: nat)
    requires ListInv(s) && s.running && s.staged == []
    ensures ListInv(RunLocked(s, clock, chosen, busy))
  {
    PassSplits(s, clock, chosen, busy);
  }

  lemma RunSleeps(s: Service, clock: int, chosen: int, busy: nat)
    requires Sorted(s.timers) && s.running
    ensures SleepInv(RunLocked(s, clock, chosen, busy))
  {
  }

  lemma FireKeepsInv(s: Service)
    requires Inv(s) && s.pc.Firing?
    ensures Inv(Fire(s))
  {
    var r := Resumption(s.staged[0], Expired, s.now);
    forall x: Timer
      ensures CountTimer(s.staged, x) - CountTimer(s.staged[1..], x)
           == CountTimer(ResumedTimers(s.resumed + [r]), x) - CountTimer(ResumedTimers(s.resumed), x)
    {
      CountFirst(s.staged, x);
      ResumedAppend(s.resumed, r, x);
    }
  }

  lemma DropKeepsInv(s: Service)
    requires Inv(s) && Enabled(s, DoDrop)
    ensures Inv(DropFirst(s))
  {
    TakeFirstKeepsOnce(s, Destroyed);
  }

  lemma StepKeepsInv(s: Service, a: Action, busy: nat)
    requires Inv(s)
    ensures Inv(Step(s, a, busy))
  {
    if Enabled(s, a) {
      match a
      case DoStart(sid, timeout) => StartKeepsInv(s, sid, timeout);
      case DoCancel(valid, sid) => CancelKeepsInv(s, valid, sid);
      case DoRun(clock, chosen) => RunKeepsInv(s, clock, chosen, busy);
      case DoFire => FireKeepsInv(s);
      case DoPoll(clock) =>
      case DoRise =>
      case DoShutdown =>
      case DoDrop => DropKeepsInv(s);
    }
  }

  lemma {:induction false} RunsKeepInv(busy: nat, acts: seq<Action>)
    ensures Inv(After(busy, acts))
    decreases |acts|
  {
    if acts == [] {
    } else {
      RunsKeepInv(busy, acts[..|acts| - 1]);
      StepKeepsInv(After(busy, acts[..|acts| - 1]), acts[|acts| - 1], busy);
    }
  }

  /** In every run a started timer was resumed at most once, and exactly once after the
      service is destroyed; it got true only if it had timed out. */
  lemma EveryTimerOnce(busy: nat, acts: seq<Action>, t: Timer)
    ensures var s := After(busy, acts);
            var resumed, started := CountTimer(ResumedTimers(s.resumed), t), CountTimer(s.started, t);
            && resumed <= started <= 1
            && (s.timers == [] && s.staged == [] ==> resumed == started)
            && (forall i | 0 <= i < |s.resumed| && s.resumed[i].cause.Expired? ::
                  s.resumed[i].timer.timeout <= s.resumed[i].at)
  {
    RunsKeepInv(busy, acts);
    var s := After(busy, acts);
    CountDistinct(s.started, t);
  }

  lemma {:induction false} CountDistinct(ts: seq<Timer>, t: Timer)
    requires forall i | 0 <= i < |ts| :: ts[i].order == i
    ensures CountTimer(ts, t) == if t in ts then 1 else 0
    decreases |ts|
  {
    if ts == [] {
    } else {
      CountDistinct(ts[..|ts| - 1], t);
      assert ts == ts[..|ts| - 1] + [ts[|ts| - 1]];
    }
  }

  /** The thread never sleeps past a pending timeout, in any run. */
  lemma NeverOversleeps(busy: nat, acts: seq<Action>, i: nat)
    requires var s := After(busy, acts); s.pc.Parked? && !s.awake && i < |s.timers|
    ensures var s := After(busy, acts); s.deadline.Until? && s.deadline.t <= s.timers[i].timeout
  {
    RunsKeepInv(busy, acts);
  }

  // ---- The defects ----

  // A step that breaks the service: cancel() looks past the first timer, or the busy-wait
  // loop finds the list empty.
  predicate Breaks(s: Service, a: Action) {
    Enabled(s, a) && ((a.DoCancel? && !CancelReturns(s, a.valid, a.sid)) || (a.DoPoll? && s.timers == []))
  }

  ghost predicate NothingBreaks(busy: nat, acts: seq<Action>) {
    forall k | 0 <= k < |acts| :: !Breaks(After(busy, acts[..k]), acts[k])
  }

  lemma NothingBreaksSplit(busy: nat, front: seq<Action>, a: Action)
    ensures NothingBreaks(busy, front + [a]) <==> NothingBreaks(busy, front) && !Breaks(After(busy, front), a)
  {
    var acts := front + [a];
    assert forall k | 0 <= k <= |front| :: acts[..k] == front[..k];
    assert front[..|front|] == front && acts[|front|] == a;
    if NothingBreaks(busy, acts) {
      forall k | 0 <= k < |front| ensures !Breaks(After(busy, front[..k]), front[k]) {
        assert !Breaks(After(busy, acts[..k]), acts[k]);
      }
    }
  }

  lemma StepDefect(s: Service, a: Action, busy: nat)
    ensures Step(s, a, busy).defect.None? <==> s.defect.None? && !Breaks(s, a)
  {
  }

  /** The service works exactly in the runs in which every cancel() finds its timer first,
      finds no timer at all, or is void, and no poll finds the list empty. */
  lemma {:induction false} WorksExactlyWhen(busy: nat, acts: seq<Action>)
    ensures After(busy, acts).defect.None? <==> NothingBreaks(busy, acts)
    decreases |acts|
  {
    if acts == [] {
    } else {
      var front, last := acts[..|acts| - 1], acts[|acts| - 1];
      assert acts == front + [last];
      NothingBreaksSplit(busy, front, last);
      WorksExactlyWhen(busy, front);
      StepDefect(After(busy, front), last, busy);
    }
  }

  /** Only a cancel() of the last pending timer empties the list under the busy-wait loop. */
  lemma OnlyCancelEmptiesBusyWait(s: Service, a: Action, busy: nat)
    requires s.pc.BusyWaiting? && s.timers != [] && Step(s, a, busy).timers == []
    ensures a.DoCancel? && |s.timers| == 1 && CancelFinds(s, a.valid, a.sid)
  {
  }

  lemma AfterThen(busy: nat, front: seq<Action>, a: Action)
    ensures After(busy, front + [a]) == Step(After(busy, front), a, busy)
  {
    assert (front + [a])[..|front|] == front;
  }

  lemma OneStarted(busy: nat, sid: nat, timeout: int)
    ensures After(busy, [DoStart(sid, timeout)])
         == Init().(running := true, pc := Relocking, timers := [Timer(sid, timeout, 0)],
                    started := [Timer(sid, timeout, 0)])
  {
    AfterThen(busy, [], DoStart(sid, timeout));
    assert [] + [DoStart(sid, timeout)] == [DoStart(sid, timeout)];
    PushAndSort([], Timer(sid, timeout, 0));
    assert [] + [Timer(sid, timeout, 0)] == [Timer(sid, timeout, 0)];
  }

  lemma TwoStarted(busy: nat)
    ensures var s := After(busy, [DoStart(1, 10), DoStart(2, 20)]);
            && s.timers == [Timer(1, 10, 0), Timer(2, 20, 1)]
            && s.running && s.defect.None? && !s.closing
  {
    var s := After(busy, [DoStart(1, 10)]);
    OneStarted(busy, 1, 10);
    AfterThen(busy, [DoStart(1, 10)], DoStart(2, 20));
    assert [DoStart(1, 10)] + [DoStart(2, 20)] == [DoStart(1, 10), DoStart(2, 20)];
    PushAndSort(s.timers, Timer(2, 20, 1));
    assert Enabled(s, DoStart(2, 20));
  }

  /** Cancelling the later of two timers never returns. */
  lemma CancelOfSecondSpins(busy: nat)
    ensures After(busy, [DoStart(1, 10), DoStart(2, 20), DoCancel(true, 2)]).defect == CancelSpins
  {
    var two := [DoStart(1, 10), DoStart(2, 20)];
    TwoStarted(busy);
    AfterThen(busy, two, DoCancel(true, 2));
    assert two + [DoCancel(true, 2)] == [DoStart(1, 10), DoStart(2, 20), DoCancel(true, 2)];
  }

  /** A timer within the busy-wait window, cancelled while the thread polls: the next poll
      reads the front of an empty list. */
  lemma PollFindsNothing()
    ensures After(5, [DoStart(1, 10), DoRun(9, 0), DoCancel(true, 1), DoPoll(9)]).defect == FrontOfEmpty
  {
    var a1, a2 := [DoStart(1, 10)], [DoStart(1, 10), DoRun(9, 0)];
    var a3 := [DoStart(1, 10), DoRun(9, 0), DoCancel(true, 1)];
    OneStarted(5, 1, 10);
    AfterThen(5, a1, DoRun(9, 0));
    AfterThen(5, a2, DoCancel(true, 1));
    AfterThen(5, a3, DoPoll(9));
    assert a1 + [DoRun(9, 0)] == a2 && a2 + [DoCancel(true, 1)] == a3;
    assert a3 + [DoPoll(9)] == [DoStart(1, 10), DoRun(9, 0), DoCancel(true, 1), DoPoll(9)];
    assert After(5, a2).timers == [Timer(1, 10, 0)] && After(5, a2).pc.BusyWaiting?;
    assert After(5, a3).timers == [] && After(5, a3).pc.BusyWaiting?;
  }

  // ---- The object ----

  class TimerServiceObject {
    const busyWaitThreshold: nat
    var running: bool
    var waiting: bool
    var timers: seq<Timer>
    var timedOut: seq<Timer>
    var now: int
    var deadline: Deadline
    ghost var pc: Pc
    ghost var awake: bool
    ghost var closing: bool
    ghost var started: seq<Timer>
    var resumed: seq<Resumption>
    var startCount: nat

    ghost function View(): Service
      reads this
    {
      Service(running, waiting, timers, timedOut, pc, deadline, awake, now, closing, None, started, resumed)
    }

    constructor (busyWaitThreshold: nat)
      ensures View() == Init() && startCount == 0
    {
      this.busyWaitThreshold := busyWaitThreshold;
      running, waiting, timers, timedOut, now, deadline := false, false, [], [], 0, Never;
      pc, awake, closing, started := NotStarted, false, false, [];
      resumed, startCount := [], 0;
    }

    method Notify_()
      modifies this`waiting, this`awake
      ensures View() == Notify(old(View()))
    {
      if waiting {
        waiting := false;
        awake := true;
      }
    }

    method Start_(sid: nat, timeout: int)
      requires startCount == |started|
      modifies this
      ensures View() == Start(old(View()), sid, timeout) && startCount == |started|
    {
      var t := Timer(sid, timeout, startCount);
      startCount := startCount + 1;
      started := started + [t];
      if !running {
        running := true;
        pc := Relocking;
      }
      timers := timers + [t];
      timers := StableSort(timers);
      Notify_();
    }

    method IsRunning(sid: nat) returns (result: bool)
      ensures result <==> Running(View(), sid)
    {
      result := false;
      if running {
        for i := 0 to |timers|
          invariant forall k | 0 <= k < i :: timers[k].sid != sid
        {
          if timers[i].sid == sid { return true; }
        }
      }
    }

    // `returns_` is false where the original searches forever.
    method CancelTimer(valid: bool, sid: nat) returns (returns_: bool, result: bool)
      modifies this
      ensures returns_ <==> CancelReturns(old(View()), valid, sid)
      ensures returns_ ==> View() == Cancel(old(View()), valid, sid)
      ensures returns_ ==> (result <==> CancelFinds(old(View()), valid, sid))
      ensures returns_ ==> (result <==> valid && Running(old(View()), sid))
      ensures result ==> old(timers) != [] && timers == old(timers)[1..] && old(timers)[0].sid == sid
      ensures result ==> resumed == old(resumed) + [Resumption(old(timers)[0], Cancelled, old(now))]
      ensures result ==> !waiting && (old(waiting) ==> awake)
      ensures returns_ && !result ==> View() == old(View())
      ensures returns_ && !result && valid ==> !Running(View(), sid)
    {
      returns_, result := true, false;
      if valid && running && |timers| > 0 {
        if timers[0].sid == sid {
          resumed := resumed + [Resumption(timers[0], Cancelled, now)];
          timers := timers[1..];
          Notify_();
          result := true;
        } else {
          returns_ := false;
        }
      }
    }

    /** The service loop from its head, holding the lock, to where it unlocks. */
    method Run(clock: int, chosen: int)
      requires timedOut == []
      modifies this
      ensures View() == RunLocked(old(View()), clock, chosen, busyWaitThreshold)
    {
      if !running {
        pc := Exited;
      } else if |timers| > 0 {
        now := Later(now, clock);
        if timers[0].timeout <= now {
          Expire();
          pc := Firing;
        } else if timers[0].timeout - now <= busyWaitThreshold {
          pc := BusyWaiting;
        } else {
          waiting := true;
          deadline := Until(Earlier(chosen, timers[0].timeout));
          pc, awake := Parked, false;
        }
      } else {
        waiting := true;
        deadline, pc, awake := Never, Parked, false;
      }
    }

    // Moves the expired timers from the front of the list to `timedOut`.
    method Expire()
      requires timedOut == []
      modifies this`timers, this`timedOut
      ensures timedOut == old(timers)[..Expiring(old(timers), now)]
      ensures timers == old(timers)[Expiring(old(timers), now)..]
    {
      ghost var n := 0;
      while |timers| > 0 && timers[0].timeout <= now
        invariant n <= |old(timers)| && timers == old(timers)[n..] && timedOut == old(timers)[..n]
        invariant n + Expiring(timers, now) == Expiring(old(timers), now)
        decreases |timers|
      {
        timedOut := timedOut + [timers[0]];
        timers := timers[1..];
        n := n + 1;
      }
    }
  }

  // ---- The default timeout algorithm ----

  datatype Thresholds = Thresholds(busyWait: int, early: int, long: int)

  predicate Sane(c: Thresholds) {
    0 <= c.busyWait && 0 < c.early && 0 <= c.long
  }

  // When to wake up for a timer due at `requested`: well before it if that is far off, in
  // small steps as it comes near, and at the latest when the busy-wait window opens.
  function DefaultTimeout(c: Thresholds, now: int, requested: int): int {
    if requested - now > c.long then requested - c.long
    else if requested - now < c.early then requested - c.busyWait
    else now + c.early
  }

  /** Asked outside the busy-wait window, the algorithm answers a time in the future that
      is not past the request. */
  lemma DefaultTimeoutIsBetween(c: Thresholds, now: int, requested: int)
    requires Sane(c) && requested - now > c.busyWait
    ensures now < DefaultTimeout(c, now, requested) <= requested
    ensures requested - now < c.early && requested - now <= c.long
            ==> requested - DefaultTimeout(c, now, requested) == c.busyWait
  {
  }

  /** The times a thread wakes up at while it waits for `requested`: it sleeps only outside
      the busy-wait window, and no sleep ends before its deadline. */
  ghost predicate Sleeps(c: Thresholds, now: int, requested: int, wakes: seq<int>)
    decreases |wakes|
  {
    wakes != [] ==>
      && requested - now > c.busyWait
      && wakes[0] >= DefaultTimeout(c, now, requested)
      && Sleeps(c, wakes[0], requested, wakes[1..])
  }

  // How many sleeps can lie ahead when `d` ticks are left.
  function SleepBound(c: Thresholds, d: int): nat
    requires Sane(c)
  {
    if d <= c.busyWait then 0
    else if d > c.long then 2 + c.long / c.early
    else if d < c.early then 1
    else 1 + d / c.early
  }

  lemma TimesMonotone(a: int, b: int, e: int)
    requires 0 < e
    ensures a >= b ==> a * e >= b * e
  {
  }

  lemma QuotientDrops(d: int, e: int, d': int)
    requires 0 < e <= d && d' <= d - e && 0 <= d'
    ensures d' / e + 1 <= d / e
  {
    assert (d' / e) * e <= d' && d < (d / e + 1) * e;
    TimesMonotone(d' / e, d / e, e);
  }

  lemma QuotientMonotone(d: int, e: int, l: int)
    requires 0 < e && 0 <= d <= l
    ensures d / e <= l / e
  {
    assert (d / e) * e <= d && l < (l / e + 1) * e;
    TimesMonotone(d / e, l / e + 1, e);
  }

  lemma BoundPositive(c: Thresholds, d: int)
    requires Sane(c) && d > c.busyWait
    ensures SleepBound(c, d) >= 1
  {
    if c.early <= d { QuotientMonotone(c.early, c.early, d); }
  }

  lemma BoundWithinLong(c: Thresholds, d: int)
    requires Sane(c) && c.busyWait < d <= c.long
    ensures SleepBound(c, d) <= 1 + c.long / c.early
  {
    QuotientMonotone(d, c.early, c.long);
  }

  lemma BoundDrops(c: Thresholds, d: int, d': int)
    requires Sane(c) && c.busyWait < d' <= d - c.early && d <= c.long
    ensures SleepBound(c, d') + 1 <= SleepBound(c, d)
  {
    QuotientDrops(d, c.early, d');
    if d' < c.early { QuotientMonotone(c.early, c.early, d); }
  }

  /** Every sleep that ends no earlier than its deadline uses up one unit of the bound. */
  lemma SleepUsesBound(c: Thresholds, now: int, requested: int, wake: int)
    requires Sane(c) && requested - now > c.busyWait
    requires wake >= DefaultTimeout(c, now, requested)
    ensures SleepBound(c, requested - wake) + 1 <= SleepBound(c, requested - now)
  {
    var d, d' := requested - now, requested - wake;
    if d' <= c.busyWait {
      BoundPositive(c, d);
    } else if d > c.long {
      BoundWithinLong(c, d');
    } else {
      BoundDrops(c, d, d');
    }
  }

  lemma {:induction false} SleepsWithinBound(c: Thresholds, now: int, requested: int, wakes: seq<int>)
    requires Sane(c) && Sleeps(c, now, requested, wakes)
    ensures |wakes| <= SleepBound(c, requested - now)
    decreases |wakes|
  {
    if wakes == [] {
    } else {
      SleepUsesBound(c, now, requested, wakes[0]);
      SleepsWithinBound(c, wakes[0], requested, wakes[1..]);
    }
  }

  /** A timer costs at most 2 + long / early sleeps before the busy-wait window opens. */
  lemma WakeUpsAreBounded(c: Thresholds, now: int, requested: int, wakes: seq<int>)
    requires Sane(c) && Sleeps(c, now, requested, wakes)
    ensures |wakes| <= 2 + c.long / c.early
  {
    SleepsWithinBound(c, now, requested, wakes);
    BoundIsBounded(c, requested - now);
  }

  // ---- The sleeps of the service ----

  // The service thread passes through its loop, the timeout algorithm being the default one.
  function Pass(c: Thresholds, s: Service, clock: int): Service
    requires Sane(c)
  {
    if s.timers == [] then Step(s, DoRun(clock, clock), c.busyWait)
    else Step(s, DoRun(clock, DefaultTimeout(c, Later(s.now, clock), s.timers[0].timeout)), c.busyWait)
  }

  // How often the thread goes to sleep in the passes that read `clocks`, rising after each
  // sleep, until it fires, busy-waits, or has no timer.
  function SleepCount(c: Thresholds, s: Service, clocks: seq<int>): nat
    requires Sane(c)
    decreases |clocks|
  {
    if clocks == [] || !Waits(c, s, clocks[0]) then 0
    else 1 + SleepCount(c, Step(Pass(c, s, clocks[0]), DoRise, c.busyWait), clocks[1..])
  }

  // The pass ends in a sleep until some time.
  predicate Waits(c: Thresholds, s: Service, clock: int)
    requires Sane(c)
  {
    s.timers != [] && Enabled(s, DoRun(clock, clock)) && s.running && Pass(c, s, clock).pc.Parked?
  }

  // No sleep ends before its deadline.
  ghost predicate OnTime(c: Thresholds, s: Service, clocks: seq<int>)
    requires Sane(c)
    decreases |clocks|
  {
    |clocks| >= 2 && Waits(c, s, clocks[0]) ==>
      var asleep := Pass(c, s, clocks[0]);
      && asleep.deadline.Until? && Later(asleep.now, clocks[1]) >= asleep.deadline.t
      && OnTime(c, Step(asleep, DoRise, c.busyWait), clocks[1..])
  }

  lemma SleepKeepsTimers(c: Thresholds, s: Service, clock: int)
    requires Sane(c) && Waits(c, s, clock)
    ensures var asleep := Pass(c, s, clock); var now := Later(s.now, clock); var due := s.timers[0].timeout;
            && due - now > c.busyWait && asleep.now == now && asleep.timers == s.timers
            && asleep.deadline == Until(DefaultTimeout(c, now, due))
            && Step(asleep, DoRise, c.busyWait) == asleep.(pc := Relocking, awake := false)
  {
    DefaultTimeoutIsBetween(c, Later(s.now, clock), s.timers[0].timeout);
  }

  lemma {:induction false} ServiceSleepsWithinBound(c: Thresholds, s: Service, clocks: seq<int>)
    requires Sane(c) && OnTime(c, s, clocks) && clocks != [] && s.timers != []
    ensures SleepCount(c, s, clocks) <= SleepBound(c, s.timers[0].timeout - Later(s.now, clocks[0]))
    decreases |clocks|
  {
    if !Waits(c, s, clocks[0]) {
    } else {
      SleepKeepsTimers(c, s, clocks[0]);
      var asleep := Pass(c, s, clocks[0]);
      var awake := Step(asleep, DoRise, c.busyWait);
      if |clocks| == 1 {
        SleepUsesBound(c, asleep.now, s.timers[0].timeout, asleep.deadline.t);
      } else {
        ServiceSleepsWithinBound(c, awake, clocks[1..]);
        SleepUsesBound(c, asleep.now, s.timers[0].timeout, Later(asleep.now, clocks[1]));
      }
    }
  }

  lemma BoundIsBounded(c: Thresholds, d: int)
    requires Sane(c)
    ensures SleepBound(c, d) <= 2 + c.long / c.early
  {
    if c.busyWait < d <= c.long { BoundWithinLong(c, d); }
  }

  /** From any state of the service, with no timer started or cancelled from then on: however
      the clock is read, the thread goes to sleep at most 2 + long / early times before it
      fires the first timer or busy-waits for it. */
  lemma ServiceWakesBoundedly(c: Thresholds, s: Service, clocks: seq<int>)
    requires Sane(c) && OnTime(c, s, clocks)
    ensures SleepCount(c, s, clocks) <= 2 + c.long / c.early
  {
    if clocks != [] && s.timers != [] {
      ServiceSleepsWithinBound(c, s, clocks);
      BoundIsBounded(c, s.timers[0].timeout - Later(s.now, clocks[0]));
    }
  }
}
