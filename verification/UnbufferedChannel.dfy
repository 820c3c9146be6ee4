/** The unbuffered channel: values pass directly between a sender and a receiver,
    whichever comes first parking until the other arrives. */
module UnbufferedChannel {
  import opened ChannelCore

  // `stale`: the first parked sender was resumed and is still in the queue.
  datatype Unbuffered<T> = Unbuffered(closed: bool, senders: seq<Sender<T>>, receivers: seq<nat>, stale: bool)

  // Undefined: an awaitable is resumed that its coroutine may have destroyed already.
  datatype Outcome<T> = Stepped(next: Unbuffered<T>, reply: Reply<T>, wakes: seq<Wake<T>>) | Undefined

  function Init<T>(): Unbuffered<T> {
    Unbuffered(false, [], [], false)
  }

  // Hands `v` to the first parked receiver.
  function Give<T>(c: Unbuffered<T>, v: T, reply: Reply<T>): Outcome<T>
    requires c.receivers != []
  {
    Stepped(c.(receivers := c.receivers[1..]), reply, [ReceiverWoken(c.receivers[0], Some(v))])
  }

  function Step<T>(c: Unbuffered<T>, op: Op<T>): Outcome<T> {
    match op
    case Send(id, v) =>
      if c.closed then Stepped(c, SendDone(false), [])
      else if c.receivers != [] then Give(c, v, SendDone(true))
      else Stepped(c.(senders := c.senders + [Sender(id, v)]), Suspended, [])
    case Recv(id) =>
      if c.closed then Stepped(c, RecvDone(None), [])
      else if c.senders == [] then Stepped(c.(receivers := c.receivers + [id]), Suspended, [])
      else if c.stale then Undefined
      else Stepped(c.(senders := c.senders[1..]), RecvDone(Some(c.senders[0].value)),
                   [SenderWoken(c.senders[0], true)])
    case TrySend(v) =>
      if c.closed then Stepped(c, TryClosed, [])
      else if c.receivers != [] then Give(c, v, TrySent)
      else Stepped(c, TryFailed, [])
    case TryRecv =>
      if c.closed then Stepped(c, TryClosed, [])
      else if c.senders == [] then Stepped(c, TryFailed, [])
      else if c.stale then Undefined
      // The sender is resumed, but stays in the queue.
      else Stepped(c.(stale := true), TryGot(c.senders[0].value), [SenderWoken(c.senders[0], true)])
    case Close =>
      if c.closed then Stepped(c, Quiet, [])
      else if c.stale then Undefined
      else Stepped(Unbuffered(true, [], [], false), Quiet, RefuseSenders(c.senders) + RefuseReceivers(c.receivers))
  }

  // ---- Runs ----

  datatype Run<T> = Live(chan: Unbuffered<T>, hist: History<T>) | Corrupt

  function Extend<T>(r: Run<T>, op: Op<T>): Run<T> {
    match r
    case Corrupt => Corrupt
    case Live(c, h) =>
      match Step(c, op)
      case Undefined => Corrupt
      case Stepped(c', reply, wakes) => Live(c', Record(h, op, reply, wakes))
  }

  function After<T>(ops: seq<Op<T>>): Run<T> {
    if ops == [] then Live(Init(), Empty()) else Extend(After(ops[..|ops| - 1]), ops[|ops| - 1])
  }

  // A try_recv() that finds a parked sender: the step that leaves it in the queue.
  predicate Lingers<T>(r: Run<T>, op: Op<T>) {
    r.Live? && op.TryRecv? && r.chan.senders != []
  }

  function LingerCount<T>(ops: seq<Op<T>>): nat {
    if ops == [] then 0
    else LingerCount(ops[..|ops| - 1]) + if Lingers(After(ops[..|ops| - 1]), ops[|ops| - 1]) then 1 else 0
  }

  /** Senders and receivers never wait at the same time, and nobody waits once closed. */
  ghost predicate Shape<T>(c: Unbuffered<T>) {
    && (c.senders == [] || c.receivers == [])
    && (c.closed ==> c.senders == [] && c.receivers == [])
    && (c.stale ==> c.senders != [])
  }

  // The parked senders that nobody resumed.
  function Unresumed<T>(c: Unbuffered<T>): seq<Sender<T>> {
    if c.stale && c.senders != [] then c.senders[1..] else c.senders
  }

  /** What holds of every defined run: a send reports success exactly when a receive returns
      its value, in arrival order, and every parked party is resumed at most once. */
  ghost predicate Rendezvous<T>(c: Unbuffered<T>, h: History<T>) {
    && h.confirmed == h.delivered
    && h.accepted == h.confirmed + Values(Unresumed(c)) + h.dropped
    && (h.dropped != [] ==> c.closed)
    && h.sendersIn == h.sendersOut + Ids(Unresumed(c))
    && h.receiversIn == h.receiversOut + c.receivers
  }

  lemma StepKeepsShape<T>(c: Unbuffered<T>, op: Op<T>)
    requires Shape(c)
    ensures Step(c, op).Undefined? <==> c.stale && Disturbs(op)
    ensures Step(c, op).Stepped? ==> Shape(Step(c, op).next)
    ensures Step(c, op).Stepped? ==> (Step(c, op).next.stale <==> c.stale || (op.TryRecv? && c.senders != []))
  {
  }

  // The operations that resume the first parked sender.
  predicate Disturbs<T>(op: Op<T>) {
    op.Recv? || op.TryRecv? || op.Close?
  }

  lemma GiveKeepsRendezvous<T>(c: Unbuffered<T>, h: History<T>, op: Op<T>)
    requires Shape(c) && Rendezvous(c, h) && (op.Send? || op.TrySend?) && c.receivers != []
    ensures var s := Step(c, op); s.Stepped? && Rendezvous(s.next, Record(h, op, s.reply, s.wakes))
  {
    var s := Step(c, op);
    RecordOne(h, op, s.reply, s.wakes[0]);
    Regroup(h.receiversOut, c.receivers[0], c.receivers[1..]);
    assert c.receivers == [c.receivers[0]] + c.receivers[1..];
    assert c.senders == [] && h.dropped == [] && h.accepted == h.confirmed;
  }

  // A receive, awaited or not, resumes the first parked sender.
  lemma TakeKeepsRendezvous<T>(c: Unbuffered<T>, h: History<T>, op: Op<T>)
    requires Shape(c) && Rendezvous(c, h) && (op.Recv? || op.TryRecv?) && c.senders != [] && !c.stale
    ensures var s := Step(c, op); s.Stepped? && Rendezvous(s.next, Record(h, op, s.reply, s.wakes))
  {
    var s := Step(c, op);
    RecordOne(h, op, s.reply, s.wakes[0]);
    UnparkSender(c.senders);
    Regroup(h.confirmed, c.senders[0].value, Values(c.senders[1..]));
    Regroup(h.sendersOut, c.senders[0].id, Ids(c.senders[1..]));
  }

  lemma ParkKeepsRendezvous<T>(c: Unbuffered<T>, h: History<T>, op: Op<T>)
    requires Shape(c) && Rendezvous(c, h) && !c.closed && op.Send? && c.receivers == []
    ensures var s := Step(c, op); s.Stepped? && Rendezvous(s.next, Record(h, op, s.reply, s.wakes))
  {
    ParkSender(Unresumed(c), Sender(op.id, op.v));
    assert h.dropped == [];
    if c.stale {
      assert (c.senders + [Sender(op.id, op.v)])[1..] == c.senders[1..] + [Sender(op.id, op.v)];
    }
  }

  lemma AroundNothing<T>(a: seq<T>, b: seq<T>)
    ensures a + [] + ([] + b) == a + b && a + [] == a
  {
  }

  lemma EveryoneRefused<T>(c: Unbuffered<T>, h: History<T>)
    requires Rendezvous(c, h) && !c.closed && !c.stale
    ensures Rendezvous(Unbuffered(true, [], [], false),
                       h.(dropped := h.dropped + Values(c.senders), sendersOut := h.sendersOut + Ids(c.senders),
                          receiversOut := h.receiversOut + c.receivers))
  {
    AroundNothing(h.confirmed, Values(c.senders));
    AroundNothing(h.sendersOut + Ids(c.senders), []);
    AroundNothing(h.confirmed + Values(c.senders), []);
  }

  lemma CloseKeepsRendezvous<T>(c: Unbuffered<T>, h: History<T>)
    requires Shape(c) && Rendezvous(c, h) && !c.closed && !c.stale
    ensures var s := Step(c, Close); s.Stepped? && Rendezvous(s.next, Record(h, Close, s.reply, s.wakes))
  {
    RecordClose(h, c.senders, c.receivers);
    EveryoneRefused(c, h);
  }

  // The operations that resume nobody and park no sender.
  lemma QuietKeepsRendezvous<T>(c: Unbuffered<T>, h: History<T>, op: Op<T>)
    requires Shape(c) && Rendezvous(c, h) && Step(c, op).Stepped? && Step(c, op).wakes == []
    requires c.closed || (!op.Close? && !op.Send?)
    ensures var s := Step(c, op); Rendezvous(s.next, Record(h, op, s.reply, s.wakes))
  {
  }

  lemma StepKeepsRendezvous<T>(c: Unbuffered<T>, h: History<T>, op: Op<T>)
    requires Shape(c) && Rendezvous(c, h) && Step(c, op).Stepped?
    ensures var s := Step(c, op); Shape(s.next) && Rendezvous(s.next, Record(h, op, s.reply, s.wakes))
  {
    StepKeepsShape(c, op);
    if !c.closed && op.Close? {
      CloseKeepsRendezvous(c, h);
    } else if (op.Send? || op.TrySend?) && c.receivers != [] {
      GiveKeepsRendezvous(c, h, op);
    } else if !c.closed && op.Send? {
      ParkKeepsRendezvous(c, h, op);
    } else if (op.Recv? || op.TryRecv?) && c.senders != [] {
      TakeKeepsRendezvous(c, h, op);
    } else {
      QuietKeepsRendezvous(c, h, op);
    }
  }

  // ---- All runs ----

  /** In every defined run the channel is a rendezvous: the k-th successful receive has the
      value of the k-th successful send, and nobody is resumed twice. */
  lemma {:induction false} RunIsRendezvous<T>(ops: seq<Op<T>>)
    requires After(ops).Live?
    ensures var r := After(ops); Shape(r.chan) && Rendezvous(r.chan, r.hist)
    decreases |ops|
  {
    if ops == [] {
    } else {
      var front, last := ops[..|ops| - 1], ops[|ops| - 1];
      RunIsRendezvous(front);
      StepKeepsRendezvous(After(front).chan, After(front).hist, last);
    }
  }

  lemma TransfersInOrder<T>(c: Unbuffered<T>, h: History<T>)
    requires Shape(c) && Rendezvous(c, h)
    ensures h.delivered == h.confirmed <= h.accepted
    ensures c.closed ==> h.sendersIn == h.sendersOut && h.receiversIn == h.receiversOut
  {
    assert h.accepted == h.confirmed + (Values(Unresumed(c)) + h.dropped);
  }

  /** In every defined run the values received are those of the first accepted sends, in the
      order they arrived, and those sends are the ones that reported success; after close
      everybody who parked has been resumed exactly once. */
  lemma SendsPairWithReceives<T>(ops: seq<Op<T>>)
    requires After(ops).Live?
    ensures After(ops).hist.delivered == After(ops).hist.confirmed <= After(ops).hist.accepted
    ensures After(ops).chan.closed ==>
              After(ops).hist.sendersIn == After(ops).hist.sendersOut
              && After(ops).hist.receiversIn == After(ops).hist.receiversOut
  {
    RunIsRendezvous(ops);
    TransfersInOrder(After(ops).chan, After(ops).hist);
  }

  /** After a try_recv() that found a parked sender, nothing receives or closes. */
  predicate Undisturbed<T>(ops: seq<Op<T>>) {
    ops == []
    || (Undisturbed(ops[..|ops| - 1]) && !(LingerCount(ops[..|ops| - 1]) > 0 && Disturbs(ops[|ops| - 1])))
  }

  lemma {:induction false} StaleOnceLingered<T>(ops: seq<Op<T>>)
    requires After(ops).Live?
    ensures After(ops).chan.stale <==> LingerCount(ops) > 0
    ensures LingerCount(ops) <= 1
    decreases |ops|
  {
    if ops == [] {
    } else {
      var front, last := ops[..|ops| - 1], ops[|ops| - 1];
      StaleOnceLingered(front);
      RunIsRendezvous(front);
      StepKeepsShape(After(front).chan, last);
    }
  }

  /** A run is defined exactly when no receive, try_recv() or close follows a try_recv() that
      met a parked sender. */
  lemma {:induction false} DefinedExactlyWhen<T>(ops: seq<Op<T>>)
    ensures After(ops).Live? <==> Undisturbed(ops)
    decreases |ops|
  {
    if ops == [] {
    } else {
      var front, last := ops[..|ops| - 1], ops[|ops| - 1];
      DefinedExactlyWhen(front);
      if After(front).Live? {
        StaleOnceLingered(front);
        RunIsRendezvous(front);
        StepKeepsShape(After(front).chan, last);
      }
    }
  }

  /** The wake-ups issued and the senders parked exceed the senders that parked by one once a
      try_recv() met a parked sender: it was resumed and is still parked. */
  lemma SurplusWakeUps<T>(ops: seq<Op<T>>)
    requires After(ops).Live?
    ensures var r := After(ops);
            |r.hist.sendersOut| + |r.chan.senders| == |r.hist.sendersIn| + LingerCount(ops)
  {
    RunIsRendezvous(ops);
    StaleOnceLingered(ops);
  }

  /** Everyone who was resumed has left the queue. */
  ghost predicate SendersOnce<T>(c: Unbuffered<T>, h: History<T>) {
    h.sendersIn == h.sendersOut + Ids(c.senders)
  }

  /** Every sender resumed has left the queue in exactly the runs in which no try_recv() met
      a parked sender. */
  lemma SendersOnceExactlyWhen<T>(ops: seq<Op<T>>)
    requires After(ops).Live?
    ensures SendersOnce(After(ops).chan, After(ops).hist) <==> LingerCount(ops) == 0
  {
    RunIsRendezvous(ops);
    SurplusWakeUps(ops);
  }

  lemma TryRecvLeavesSender<T>(v: T)
    ensures var r := After([Send(3, v), TryRecv]);
            && r.Live? && r.chan == Unbuffered(false, [Sender(3, v)], [], true)
            && r.hist.sendersOut == [3] && r.hist.delivered == [v]
  {
    var two: seq<Op<T>> := [Send(3, v), TryRecv];
    var one: seq<Op<T>> := [Send(3, v)];
    assert two[..1] == one && one[..0] == [];
    assert After(one[..0]) == Live(Init(), Empty());
    var r := After(one);
    assert r.Live? && r.chan == Unbuffered(false, [Sender(3, v)], [], false);
    assert r.hist.sendersOut == [] && r.hist.delivered == [];
    RecordOne(r.hist, TryRecv, TryGot(v), SenderWoken(Sender(3, v), true));
  }

  /** One send, one try_recv() and one receive: the sender is resumed a second time. */
  lemma SenderResumedTwice<T>(v: T)
    ensures After([Send(3, v), TryRecv, Recv(4)]) == Corrupt
  {
    var ops: seq<Op<T>> := [Send(3, v), TryRecv, Recv(4)];
    assert ops[..2] == [Send(3, v), TryRecv];
    TryRecvLeavesSender(v);
  }

  // ---- What each operation achieves, told from the history alone ----

  lemma AfterOne<T>(ops: seq<Op<T>>, op: Op<T>)
    ensures After(ops + [op]) == Extend(After(ops), op)
  {
    assert (ops + [op])[..|ops|] == ops;
  }

  // The answer to `op` made after `ops`.
  function Answer<T>(ops: seq<Op<T>>, op: Op<T>): Reply<T>
    requires After(ops + [op]).Live?
  {
    AfterOne(ops, op);
    Step(After(ops).chan, op).reply
  }

  lemma StepCloses<T>(c: Unbuffered<T>, op: Op<T>)
    requires Step(c, op).Stepped?
    ensures Step(c, op).next.closed <==> c.closed || op.Close?
  {
  }

  lemma {:induction false} ClosedOnceClosed<T>(ops: seq<Op<T>>)
    requires After(ops).Live?
    ensures After(ops).chan.closed <==> Close in ops
    decreases |ops|
  {
    if ops == [] {
    } else {
      var front, last := ops[..|ops| - 1], ops[|ops| - 1];
      assert ops == front + [last];
      ClosedOnceClosed(front);
      ClosedBy(front, last);
      StepCloses(After(front).chan, last);
    }
  }

  // What the history says of the channel.
  lemma Observed<T>(c: Unbuffered<T>, h: History<T>)
    requires Shape(c) && Rendezvous(c, h)
    ensures Ready(h) == [] && WaitingReceivers(h) == c.receivers
    ensures WaitingSenders(h) == Ids(Unresumed(c)) && WaitingValues(h) == Values(Unresumed(c))
  {
    LeftOf(h.receiversIn, h.receiversOut, c.receivers);
    LeftOf(h.sendersIn, h.sendersOut, Ids(Unresumed(c)));
    Associate(h.confirmed, Values(Unresumed(c)), h.dropped);
    LeftOf(h.accepted, h.confirmed, Values(Unresumed(c)) + h.dropped);
  }

  // The history after the first waiting sender's value was received.
  function Met<T>(h: History<T>): History<T>
    requires WaitingSenders(h) != [] && WaitingValues(h) != []
  {
    h.(delivered := h.delivered + WaitingValues(h)[..1], confirmed := h.confirmed + WaitingValues(h)[..1],
       sendersOut := h.sendersOut + WaitingSenders(h)[..1])
  }

  lemma MeetAnswers<T>(c: Unbuffered<T>, h: History<T>, op: Op<T>)
    requires Shape(c) && Rendezvous(c, h) && (op.Recv? || op.TryRecv?)
    requires WaitingSenders(h) != [] && Step(c, op).Stepped?
    ensures WaitingValues(h) != []
    ensures var s := Step(c, op); var v := WaitingValues(h)[0];
            s.reply == (if op.Recv? then RecvDone(Some(v)) else TryGot(v))
            && Record(h, op, s.reply, s.wakes) == Met(h)
  {
    Observed(c, h);
    var s := Step(c, op);
    RecordOne(h, op, s.reply, s.wakes[0]);
    UnparkSender(c.senders);
  }

  lemma GiveAnswers<T>(c: Unbuffered<T>, h: History<T>, op: Op<T>)
    requires Shape(c) && Rendezvous(c, h) && (op.Send? || op.TrySend?) && WaitingReceivers(h) != []
    ensures var s := Step(c, op);
            s.Stepped? && s.reply == (if op.Send? then SendDone(true) else TrySent)
            && Record(h, op, s.reply, s.wakes) == Stored(h, op.v)
  {
    Observed(c, h);
    var s := Step(c, op);
    RecordOne(h, op, s.reply, s.wakes[0]);
  }

  /** A try_send() on an open channel hands its value to the first waiting receiver and succeeds;
      it fails exactly when nobody waits to receive, and answers closed exactly after a close. */
  lemma TrySendAnswers<T>(ops: seq<Op<T>>, v: T)
    requires After(ops).Live?
    ensures After(ops + [TrySend(v)]).Live?
    ensures var h, h' := After(ops).hist, After(ops + [TrySend(v)]).hist;
            var answer := Answer(ops, TrySend(v));
            if Close in ops then answer == TryClosed && h' == h
            else if WaitingReceivers(h) != [] then answer == TrySent && h' == Stored(h, v)
            else answer == TryFailed && h' == h
  {
    RunIsRendezvous(ops);
    ClosedOnceClosed(ops);
    AfterOne(ops, TrySend(v));
    var r := After(ops);
    Observed(r.chan, r.hist);
    if WaitingReceivers(r.hist) != [] { GiveAnswers(r.chan, r.hist, TrySend(v)); }
  }

  /** A send on an open channel does the same, and waits when nobody waits to receive; it is
      refused exactly after a close. */
  lemma SendAnswers<T>(ops: seq<Op<T>>, id: nat, v: T)
    requires After(ops).Live?
    ensures After(ops + [Send(id, v)]).Live?
    ensures var h, h' := After(ops).hist, After(ops + [Send(id, v)]).hist;
            var answer := Answer(ops, Send(id, v));
            if Close in ops then answer == SendDone(false) && h' == h
            else if WaitingReceivers(h) != [] then answer == SendDone(true) && h' == Stored(h, v)
            else answer == Suspended && h' == h.(accepted := h.accepted + [v], sendersIn := h.sendersIn + [id])
  {
    RunIsRendezvous(ops);
    ClosedOnceClosed(ops);
    AfterOne(ops, Send(id, v));
    var r := After(ops);
    Observed(r.chan, r.hist);
    if WaitingReceivers(r.hist) != [] { GiveAnswers(r.chan, r.hist, Send(id, v)); }
  }

  /** A receive whose outcome is defined returns the value of the first waiting sender and resumes
      it; with nobody waiting to send it fails exactly after a close, and waits otherwise. */
  lemma ReceiveAnswers<T>(ops: seq<Op<T>>, id: nat)
    requires After(ops + [Recv(id)]).Live?
    ensures After(ops).Live?
    ensures var h, h' := After(ops).hist, After(ops + [Recv(id)]).hist;
            var answer := Answer(ops, Recv(id));
            if WaitingSenders(h) != [] && WaitingValues(h) != []
              then answer == RecvDone(Some(WaitingValues(h)[0])) && h' == Met(h)
            else if Close in ops then answer == RecvDone(None) && h' == h
            else answer == Suspended && h' == h.(receiversIn := h.receiversIn + [id])
  {
    AfterOne(ops, Recv(id));
    RunIsRendezvous(ops);
    ClosedOnceClosed(ops);
    var r := After(ops);
    Observed(r.chan, r.hist);
    if WaitingSenders(r.hist) != [] { MeetAnswers(r.chan, r.hist, Recv(id)); }
  }

  /** So does a try_recv(), which fails instead of waiting. */
  lemma TryReceiveAnswers<T>(ops: seq<Op<T>>)
    requires After(ops + [TryRecv]).Live?
    ensures After(ops).Live?
    ensures var h, h' := After(ops).hist, After(ops + [TryRecv]).hist;
            var answer := Answer(ops, TryRecv);
            if WaitingSenders(h) != [] && WaitingValues(h) != []
              then answer == TryGot(WaitingValues(h)[0]) && h' == Met(h)
            else answer == (if Close in ops then TryClosed else TryFailed) && h' == h
  {
    AfterOne(ops, TryRecv);
    RunIsRendezvous(ops);
    ClosedOnceClosed(ops);
    var r := After(ops);
    Observed(r.chan, r.hist);
    if WaitingSenders(r.hist) != [] { MeetAnswers(r.chan, r.hist, TryRecv); }
  }

  lemma RefusesAll<T>(c: Unbuffered<T>, h: History<T>)
    requires Shape(c) && Rendezvous(c, h) && Step(c, Close).Stepped?
    ensures var s := Step(c, Close);
            Record(h, Close, s.reply, s.wakes)
              == h.(dropped := h.dropped + WaitingValues(h), sendersOut := h.sendersOut + WaitingSenders(h),
                    receiversOut := h.receiversOut + WaitingReceivers(h))
  {
    Observed(c, h);
    if !c.closed {
      RecordClose(h, c.senders, c.receivers);
    }
  }

  /** A close whose outcome is defined refuses everybody who waits, in order. */
  lemma CloseAnswers<T>(ops: seq<Op<T>>)
    requires After(ops + [Close]).Live?
    ensures After(ops).Live?
    ensures var h, h' := After(ops).hist, After(ops + [Close]).hist;
            h' == h.(dropped := h.dropped + WaitingValues(h), sendersOut := h.sendersOut + WaitingSenders(h),
                     receiversOut := h.receiversOut + WaitingReceivers(h))
  {
    AfterOne(ops, Close);
    RunIsRendezvous(ops);
    RefusesAll(After(ops).chan, After(ops).hist);
  }

  // ---- The object ----

  class UnbufferedChannel<T> {
    var closedFlag: bool
    var parkedSend: seq<Sender<T>>
    var parkedRecv: seq<nat>
    ghost var stale: bool

    ghost function View(): Unbuffered<T>
      reads this
    {
      Unbuffered(closedFlag, parkedSend, parkedRecv, stale)
    }

    constructor ()
      ensures View() == Init()
    {
      closedFlag, parkedSend, parkedRecv, stale := false, [], [], false;
    }

    method OnReadySend(id: nat, v: T) returns (reply: Reply<T>, wakes: seq<Wake<T>>)
      modifies this
      ensures Step(old(View()), Send(id, v)) == Stepped(View(), reply, wakes)
    {
      wakes := [];
      if closedFlag {
        reply := SendDone(false);
      } else if |parkedRecv| > 0 {
        wakes := [ReceiverWoken(parkedRecv[0], Some(v))];
        parkedRecv := parkedRecv[1..];
        reply := SendDone(true);
      } else {
        parkedSend := parkedSend + [Sender(id, v)];
        reply := Suspended;
      }
    }

    method OnReadyRecv(id: nat) returns (reply: Reply<T>, wakes: seq<Wake<T>>)
      modifies this
      ensures var s := Step(old(View()), Recv(id)); s.Stepped? ==> s == Stepped(View(), reply, wakes)
    {
      wakes := [];
      if closedFlag {
        reply := RecvDone(None);
      } else if |parkedSend| > 0 {
        wakes := [SenderWoken(parkedSend[0], true)];
        reply := RecvDone(Some(parkedSend[0].value));
        parkedSend := parkedSend[1..];
      } else {
        parkedRecv := parkedRecv + [id];
        reply := Suspended;
      }
    }

    method TrySend_(v: T) returns (reply: Reply<T>, wakes: seq<Wake<T>>)
      modifies this
      ensures Step(old(View()), TrySend(v)) == Stepped(View(), reply, wakes)
    {
      wakes := [];
      if closedFlag {
        reply := TryClosed;
      } else if |parkedRecv| > 0 {
        wakes := [ReceiverWoken(parkedRecv[0], Some(v))];
        parkedRecv := parkedRecv[1..];
        reply := TrySent;
      } else {
        reply := TryFailed;
      }
    }

    // The queue is left as it was.
    method TryRecv_() returns (reply: Reply<T>, wakes: seq<Wake<T>>)
      modifies this`stale
      ensures var s := Step(old(View()), TryRecv); s.Stepped? ==> s == Stepped(View(), reply, wakes)
    {
      wakes := [];
      if closedFlag {
        reply := TryClosed;
      } else if |parkedSend| > 0 {
        wakes := [SenderWoken(parkedSend[0], true)];
        reply := TryGot(parkedSend[0].value);
        stale := true;
      } else {
        reply := TryFailed;
      }
    }

    method CloseChannel() returns (wakes: seq<Wake<T>>)
      modifies this
      ensures var s := Step(old(View()), Close); s.Stepped? ==> s == Stepped(View(), Quiet, wakes)
    {
      wakes := [];
      if !closedFlag {
        closedFlag, stale := true, false;
        ghost var n := 0;
        while |parkedSend| > 0
          invariant n <= |old(parkedSend)| && parkedSend == old(parkedSend)[n..]
          invariant closedFlag && !stale && parkedRecv == old(parkedRecv)
          invariant wakes == RefuseSenders(old(parkedSend)[..n])
          decreases |parkedSend|
        {
          wakes := wakes + [SenderWoken(parkedSend[0], false)];
          parkedSend := parkedSend[1..];
          n := n + 1;
        }
        assert old(parkedSend)[..n] == old(parkedSend);
        n := 0;
        while |parkedRecv| > 0
          invariant n <= |old(parkedRecv)| && parkedRecv == old(parkedRecv)[n..]
          invariant closedFlag && !stale && parkedSend == []
          invariant wakes == RefuseSenders(old(parkedSend)) + RefuseReceivers(old(parkedRecv)[..n])
          decreases |parkedRecv|
        {
          wakes := wakes + [ReceiverWoken(parkedRecv[0], None)];
          parkedRecv := parkedRecv[1..];
          n := n + 1;
        }
        assert old(parkedRecv)[..n] == old(parkedRecv);
      }
    }
  }
}
