/** The buffered channel: a bounded ring of values, and queues of parked senders
    and receivers.  Each operation is one critical section under the channel lock. */
module BufferedChannel {
  import opened ChannelCore
  import opened RingBuffer

  datatype Buffered<T> = Buffered(
    cap: nat, closed: bool, buf: seq<T>, senders: seq<Sender<T>>, receivers: seq<nat>)

  // What a critical section does; Undefined stands for C++ undefined behaviour.
  datatype Outcome<T> = Stepped(next: Buffered<T>, reply: Reply<T>, wakes: seq<Wake<T>>) | Undefined

  function Init<T>(sz: nat): Buffered<T> {
    Buffered(if sz == 0 then 1 else sz, false, [], [], [])
  }

  // A receive from a non-empty ring lets the first parked sender take the freed slot.
  function Take<T>(c: Buffered<T>, reply: Reply<T>): Outcome<T>
    requires c.buf != []
  {
    if c.senders == [] then Stepped(c.(buf := c.buf[1..]), reply, [])
    else Stepped(c.(buf := c.buf[1..] + [c.senders[0].value], senders := c.senders[1..]), reply,
                 [SenderWoken(c.senders[0], true)])
  }

  function Step<T>(c: Buffered<T>, op: Op<T>): Outcome<T> {
    match op
    case Send(id, v) =>
      // A send on a closed channel answers "not ready" without parking its awaiter.
      if c.closed then Stepped(c, Stranded, [])
      else if |c.buf| == c.cap then Stepped(c.(senders := c.senders + [Sender(id, v)]), Suspended, [])
      else if c.receivers == [] then Stepped(c.(buf := c.buf + [v]), SendDone(true), [])
      else
        var buf := c.buf + [v];
        Stepped(c.(buf := buf[1..], receivers := c.receivers[1..]), SendDone(true),
                [ReceiverWoken(c.receivers[0], Some(buf[0]))])
    case Recv(id) =>
      if c.buf != [] then Take(c, RecvDone(Some(c.buf[0])))
      else if c.closed then Stepped(c, RecvDone(None), [])
      else Stepped(c.(receivers := c.receivers + [id]), Suspended, [])
    case TrySend(v) =>
      if c.closed then Stepped(c, TryClosed, [])
      else if |c.buf| == c.cap then Stepped(c, TryFailed, [])
      // A parked receiver would be resumed with the ring where it expects a transfer.
      else if c.receivers != [] then Undefined
      else Stepped(c.(buf := c.buf + [v]), TrySent, [])
    case TryRecv =>
      if c.buf != [] then Take(c, TryGot(c.buf[0]))
      else if c.closed then Stepped(c, TryClosed, [])
      else Stepped(c, TryFailed, [])
    case Close =>
      if c.closed then Stepped(c, Quiet, [])
      else Stepped(c.(closed := true, senders := [], receivers := []), Quiet,
                   RefuseSenders(c.senders) + RefuseReceivers(c.receivers))
  }

  // ---- Runs ----

  datatype Run<T> = Live(chan: Buffered<T>, hist: History<T>) | Corrupt

  function Extend<T>(r: Run<T>, op: Op<T>): Run<T> {
    match r
    case Corrupt => Corrupt
    case Live(c, h) =>
      match Step(c, op)
      case Undefined => Corrupt
      case Stepped(c', reply, wakes) => Live(c', Record(h, op, reply, wakes))
  }

  function After<T>(sz: nat, ops: seq<Op<T>>): Run<T> {
    if ops == [] then Live(Init(sz), Empty()) else Extend(After(sz, ops[..|ops| - 1]), ops[|ops| - 1])
  }

  /** The shape of the channel: senders park only while it is full and open, receivers
      only while it is empty and open. */
  ghost predicate Shape<T>(c: Buffered<T>) {
    && c.cap >= 1 && |c.buf| <= c.cap
    && (c.senders != [] ==> |c.buf| == c.cap && !c.closed)
    && (c.receivers != [] ==> c.buf == [] && !c.closed)
  }

  /** Conservation and order of values, and exactly-once wake-up of parked awaiters. */
  ghost predicate Fifo<T>(c: Buffered<T>, h: History<T>) {
    && h.confirmed == h.delivered + c.buf
    && h.accepted == h.confirmed + Values(c.senders) + h.dropped
    && (h.dropped != [] ==> c.closed)
    && h.sendersIn == h.sendersOut + Ids(c.senders)
    && h.receiversIn == h.receiversOut + c.receivers
  }

  lemma StepKeepsShape<T>(c: Buffered<T>, op: Op<T>)
    requires Shape(c)
    ensures Step(c, op).Undefined? <==> op.TrySend? && c.receivers != []
    ensures Step(c, op).Stepped? ==> Shape(Step(c, op).next)
    ensures Step(c, op).Stepped? ==> Step(c, op).next.cap == c.cap
    ensures Step(c, op).Stepped? ==> (Step(c, op).next.closed <==> c.closed || op.Close?)
    ensures Step(c, op).Stepped? ==> (Step(c, op).reply.Stranded? <==> op.Send? && c.closed)
  {
  }

  lemma PutKeepsFifo<T>(c: Buffered<T>, h: History<T>, op: Op<T>)
    requires Shape(c) && Fifo(c, h) && Step(c, op).Stepped? && (op.Send? || op.TrySend?)
    ensures var s := Step(c, op); Fifo(s.next, Record(h, op, s.reply, s.wakes))
  {
    var s := Step(c, op);
    var g := RecordReply(h, op, s.reply);
    if s.reply.Suspended? {
      ParkSender(c.senders, Sender(op.id, op.v));
      assert h.dropped == [];
    } else if s.reply.SendDone? || s.reply.TrySent? {
      assert g.accepted == g.confirmed + Values(c.senders) + h.dropped by {
        assert c.senders == [] && h.dropped == [];
      }
      if s.wakes != [] {
        RecordOne(h, op, s.reply, s.wakes[0]);
        assert c.buf == [] && c.receivers == [c.receivers[0]] + c.receivers[1..];
      }
    }
  }

  lemma TakeKeepsFifo<T>(c: Buffered<T>, h: History<T>, op: Op<T>)
    requires Shape(c) && Fifo(c, h) && (op.Recv? || op.TryRecv?)
    ensures var s := Step(c, op); Fifo(s.next, Record(h, op, s.reply, s.wakes))
  {
    var s := Step(c, op);
    if c.buf != [] {
      if c.senders == [] {
        PassThrough(h.confirmed, h.delivered, c.buf, c.buf[0]);
      } else {
        PassThrough(h.confirmed, h.delivered, c.buf, c.senders[0].value);
        RecordOne(h, op, s.reply, s.wakes[0]);
        UnparkSender(c.senders);
        Regroup(h.confirmed, c.senders[0].value, Values(c.senders[1..]));
        Regroup(h.sendersOut, c.senders[0].id, Ids(c.senders[1..]));
      }
    }
  }

  lemma StepKeepsFifo<T>(c: Buffered<T>, h: History<T>, op: Op<T>)
    requires Shape(c) && Fifo(c, h) && Step(c, op).Stepped?
    ensures var s := Step(c, op); Fifo(s.next, Record(h, op, s.reply, s.wakes))
  {
    if op.Close? {
      if !c.closed { RecordClose(h, c.senders, c.receivers); }
    } else if op.Send? || op.TrySend? {
      PutKeepsFifo(c, h, op);
    } else {
      TakeKeepsFifo(c, h, op);
    }
  }

  // ---- All runs ----

  /** In every run of every capacity, values come out in the order they went in, none is
      lost or duplicated, and every parked awaiter is resumed exactly once. */
  lemma {:induction false} RunIsFifo<T>(sz: nat, ops: seq<Op<T>>)
    requires After(sz, ops).Live?
    ensures var r := After(sz, ops); Shape(r.chan) && Fifo(r.chan, r.hist)
    ensures var r := After(sz, ops); r.chan.cap == Init<T>(sz).cap && (r.chan.closed <==> Close in ops)
    decreases |ops|
  {
    if ops == [] {
    } else {
      var front, last := ops[..|ops| - 1], ops[|ops| - 1];
      assert ops == front + [last];
      RunIsFifo(sz, front);
      StepKeepsShape(After(sz, front).chan, last);
      StepKeepsFifo(After(sz, front).chan, After(sz, front).hist, last);
    }
  }

  /** What a receiver sees: the values received so far are the first accepted ones. */
  lemma DeliveredIsPrefixOfAccepted<T>(sz: nat, ops: seq<Op<T>>)
    requires After(sz, ops).Live?
    ensures var h := After(sz, ops).hist;
            h.delivered <= h.confirmed && h.confirmed <= h.accepted
    ensures var r := After(sz, ops);
            Close in ops ==> r.hist.sendersIn == r.hist.sendersOut && r.hist.receiversIn == r.hist.receiversOut
  {
    RunIsFifo(sz, ops);
    var r := After(sz, ops);
    assert r.hist.accepted == r.hist.confirmed + (Values(r.chan.senders) + r.hist.dropped);
  }

  // The try_send() `op`, made after `before`, finds a parked receiver.
  predicate MeetsReceiver<T>(sz: nat, before: seq<Op<T>>, op: Op<T>) {
    op.TrySend? && After(sz, before).Live? && After(sz, before).chan.receivers != []
  }

  ghost predicate TrySendsMeetNoReceiver<T>(sz: nat, ops: seq<Op<T>>) {
    forall k | 0 <= k < |ops| :: !MeetsReceiver(sz, ops[..k], ops[k])
  }

  lemma MeetNoReceiverSplit<T>(sz: nat, front: seq<Op<T>>, op: Op<T>)
    ensures TrySendsMeetNoReceiver(sz, front + [op])
       <==> TrySendsMeetNoReceiver(sz, front) && !MeetsReceiver(sz, front, op)
  {
    var ops := front + [op];
    assert forall k | 0 <= k <= |front| :: ops[..k] == front[..k];
    assert front[..|front|] == front && ops[|front|] == op;
    if TrySendsMeetNoReceiver(sz, ops) {
      forall k | 0 <= k < |front| ensures !MeetsReceiver(sz, front[..k], front[k]) {
        assert !MeetsReceiver(sz, ops[..k], ops[k]);
      }
    }
  }

  /** A run stays defined exactly when no try_send() meets a parked receiver. */
  lemma {:induction false} DefinedExactlyWhen<T>(sz: nat, ops: seq<Op<T>>)
    ensures After(sz, ops).Live? <==> TrySendsMeetNoReceiver(sz, ops)
    decreases |ops|
  {
    if ops == [] {
    } else {
      var front, last := ops[..|ops| - 1], ops[|ops| - 1];
      assert ops == front + [last];
      MeetNoReceiverSplit(sz, front, last);
      DefinedExactlyWhen(sz, front);
      if After(sz, front).Live? {
        RunIsFifo(sz, front);
        StepKeepsShape(After(sz, front).chan, last);
      }
    }
  }

  lemma TrySendToParkedReceiver<T>(v: T)
    ensures After(1, [Recv(0), TrySend(v)]) == Corrupt
  {
    var ops, first: seq<Op<T>> := [Recv(0), TrySend(v)], [Recv(0)];
    assert ops[..1] == first && first[..0] == [];
    assert After(1, first).Live? && After(1, first).chan.receivers == [0];
  }

  // No awaited send is made on a closed channel.
  ghost predicate NoSendAfterClose<T>(ops: seq<Op<T>>) {
    forall i, j | 0 <= i < j < |ops| :: ops[i].Close? ==> !ops[j].Send?
  }

  lemma NoSendAfterCloseSplit<T>(front: seq<Op<T>>, op: Op<T>)
    ensures NoSendAfterClose(front + [op]) <==> NoSendAfterClose(front) && !(op.Send? && Close in front)
  {
    var ops := front + [op];
    assert forall k | 0 <= k < |front| :: ops[k] == front[k];
    assert ops[|front|] == op;
    if NoSendAfterClose(front) && !NoSendAfterClose(ops) {
      var i, j :| 0 <= i < j < |ops| && ops[i].Close? && ops[j].Send?;
      assert front[i] == Close && Close in front;
    }
    if op.Send? && Close in front {
      var i :| 0 <= i < |front| && front[i] == Close;
      assert ops[i].Close? && ops[|front|].Send?;
    }
    if NoSendAfterClose(ops) {
      forall i, j | 0 <= i < j < |front| ensures front[i].Close? ==> !front[j].Send? {
        assert ops[i] == front[i] && ops[j] == front[j];
      }
    }
  }

  /** An awaiter is left suspended with nobody to resume it exactly when it is sent on a
      channel that was closed before. */
  lemma {:induction false} StrandedExactlyAfterClose<T>(sz: nat, ops: seq<Op<T>>)
    requires After(sz, ops).Live?
    ensures After(sz, ops).hist.stranded == [] <==> NoSendAfterClose(ops)
    decreases |ops|
  {
    if ops == [] {
    } else {
      var front, last := ops[..|ops| - 1], ops[|ops| - 1];
      assert ops == front + [last];
      NoSendAfterCloseSplit(front, last);
      StrandedExactlyAfterClose(sz, front);
      RunIsFifo(sz, front);
      StepStrands(After(sz, front).chan, After(sz, front).hist, last);
    }
  }

  lemma StepStrands<T>(c: Buffered<T>, h: History<T>, op: Op<T>)
    requires Shape(c) && Step(c, op).Stepped?
    ensures var s := Step(c, op);
            Record(h, op, s.reply, s.wakes).stranded == [] <==> h.stranded == [] && !(op.Send? && c.closed)
  {
    var s := Step(c, op);
    StepKeepsShape(c, op);
    WakesStrandNobody(RecordReply(h, op, s.reply), s.wakes);
  }

  lemma StrandedAfterClose<T>(v: T)
    ensures var r := After(1, [Close, Send(7, v)]); r.Live? && r.hist.stranded == [7] && r.hist.sendersIn == []
  {
    var ops, first: seq<Op<T>> := [Close, Send(7, v)], [Close];
    assert ops[..1] == first && first[..0] == [];
    assert After(1, first).Live? && After(1, first).chan.closed;
  }

  // ---- What each operation achieves, told from the history alone ----

  lemma AfterOne<T>(sz: nat, ops: seq<Op<T>>, op: Op<T>)
    ensures After(sz, ops + [op]) == Extend(After(sz, ops), op)
  {
    assert (ops + [op])[..|ops|] == ops;
  }

  // The answer to `op` made after `ops`.
  function Answer<T>(sz: nat, ops: seq<Op<T>>, op: Op<T>): Reply<T>
    requires After(sz, ops + [op]).Live?
  {
    AfterOne(sz, ops, op);
    Step(After(sz, ops).chan, op).reply
  }

  // What the history says of the channel.
  lemma Observed<T>(c: Buffered<T>, h: History<T>)
    requires Shape(c) && Fifo(c, h)
    ensures Ready(h) == c.buf && WaitingReceivers(h) == c.receivers
    ensures WaitingSenders(h) == Ids(c.senders) && WaitingValues(h) == Values(c.senders)
  {
    LeftOf(h.confirmed, h.delivered, c.buf);
    LeftOf(h.receiversIn, h.receiversOut, c.receivers);
    LeftOf(h.sendersIn, h.sendersOut, Ids(c.senders));
    Associate(h.confirmed, Values(c.senders), h.dropped);
    LeftOf(h.accepted, h.confirmed, Values(c.senders) + h.dropped);
  }

  lemma TakeAnswers<T>(c: Buffered<T>, h: History<T>, op: Op<T>)
    requires Shape(c) && Fifo(c, h) && Ready(h) != [] && (op.Recv? || op.TryRecv?)
    ensures var s := Step(c, op);
            s.Stepped? && s.reply == (if op.Recv? then RecvDone(Some(Ready(h)[0])) else TryGot(Ready(h)[0]))
            && Record(h, op, s.reply, s.wakes) == Taken(h)
  {
    Observed(c, h);
    var s := Step(c, op);
    if c.senders != [] {
      RecordOne(h, op, s.reply, s.wakes[0]);
      UnparkSender(c.senders);
    }
  }

  lemma PutAnswers<T>(c: Buffered<T>, h: History<T>, op: Op<T>)
    requires Shape(c) && Fifo(c, h) && (op.Send? || (op.TrySend? && WaitingReceivers(h) == []))
    requires !c.closed && |Ready(h)| < c.cap
    ensures var s := Step(c, op);
            s.Stepped? && s.reply == (if op.Send? then SendDone(true) else TrySent)
            && Record(h, op, s.reply, s.wakes) == Stored(h, op.v)
  {
    Observed(c, h);
    var s := Step(c, op);
    if c.receivers != [] {
      RecordOne(h, op, s.reply, s.wakes[0]);
    }
  }

  /** A receive returns the first value confirmed and not yet delivered whenever there is one,
      open or closed, and lets the first waiting sender in.  With none it fails exactly after
      a close, and waits otherwise. */
  lemma ReceiveAnswers<T>(sz: nat, ops: seq<Op<T>>, id: nat)
    requires After(sz, ops).Live?
    ensures After(sz, ops + [Recv(id)]).Live?
    ensures var h, h' := After(sz, ops).hist, After(sz, ops + [Recv(id)]).hist;
            var answer := Answer(sz, ops, Recv(id));
            if Ready(h) != [] then answer == RecvDone(Some(Ready(h)[0])) && h' == Taken(h)
            else if Close in ops then answer == RecvDone(None) && h' == h
            else answer == Suspended && h' == h.(receiversIn := h.receiversIn + [id])
  {
    RunIsFifo(sz, ops);
    AfterOne(sz, ops, Recv(id));
    var r := After(sz, ops);
    Observed(r.chan, r.hist);
    if Ready(r.hist) != [] { TakeAnswers(r.chan, r.hist, Recv(id)); }
  }

  /** A try_recv() returns that value too; with none it answers closed exactly after a close,
      and fails otherwise. */
  lemma TryReceiveAnswers<T>(sz: nat, ops: seq<Op<T>>)
    requires After(sz, ops).Live?
    ensures After(sz, ops + [TryRecv]).Live?
    ensures var h, h' := After(sz, ops).hist, After(sz, ops + [TryRecv]).hist;
            var answer := Answer(sz, ops, TryRecv);
            if Ready(h) != [] then answer == TryGot(Ready(h)[0]) && h' == Taken(h)
            else answer == (if Close in ops then TryClosed else TryFailed) && h' == h
  {
    RunIsFifo(sz, ops);
    AfterOne(sz, ops, TryRecv);
    var r := After(sz, ops);
    Observed(r.chan, r.hist);
    if Ready(r.hist) != [] { TakeAnswers(r.chan, r.hist, TryRecv); }
  }

  /** A send on an open channel succeeds exactly when fewer values are ready than the channel
      holds, and hands its value to the first waiting receiver; otherwise it waits. */
  lemma SendAnswers<T>(sz: nat, ops: seq<Op<T>>, id: nat, v: T)
    requires After(sz, ops).Live?
    ensures After(sz, ops + [Send(id, v)]).Live?
    ensures var h, h' := After(sz, ops).hist, After(sz, ops + [Send(id, v)]).hist;
            var answer := Answer(sz, ops, Send(id, v));
            if Close in ops then answer == Stranded && h' == h.(stranded := h.stranded + [id])
            else if |Ready(h)| < Init<T>(sz).cap then answer == SendDone(true) && h' == Stored(h, v)
            else answer == Suspended && h' == h.(accepted := h.accepted + [v], sendersIn := h.sendersIn + [id])
  {
    RunIsFifo(sz, ops);
    AfterOne(sz, ops, Send(id, v));
    var r := After(sz, ops);
    Observed(r.chan, r.hist);
    if Close !in ops && |Ready(r.hist)| < r.chan.cap { PutAnswers(r.chan, r.hist, Send(id, v)); }
  }

  /** A try_send() with nobody waiting to receive succeeds exactly when open with room; it fails
      when open without, and answers closed exactly after a close. */
  lemma TrySendAnswers<T>(sz: nat, ops: seq<Op<T>>, v: T)
    requires After(sz, ops).Live? && WaitingReceivers(After(sz, ops).hist) == []
    ensures After(sz, ops + [TrySend(v)]).Live?
    ensures var h, h' := After(sz, ops).hist, After(sz, ops + [TrySend(v)]).hist;
            var answer := Answer(sz, ops, TrySend(v));
            if Close in ops then answer == TryClosed && h' == h
            else if |Ready(h)| < Init<T>(sz).cap then answer == TrySent && h' == Stored(h, v)
            else answer == TryFailed && h' == h
  {
    RunIsFifo(sz, ops);
    AfterOne(sz, ops, TrySend(v));
    var r := After(sz, ops);
    Observed(r.chan, r.hist);
    if Close !in ops && |Ready(r.hist)| < r.chan.cap { PutAnswers(r.chan, r.hist, TrySend(v)); }
  }

  /** The first close refuses everybody who waits, in order, and touches no ready value; a later
      one does nothing. */
  lemma CloseAnswers<T>(sz: nat, ops: seq<Op<T>>)
    requires After(sz, ops).Live?
    ensures After(sz, ops + [Close]).Live?
    ensures var h, h' := After(sz, ops).hist, After(sz, ops + [Close]).hist;
            h' == h.(dropped := h.dropped + WaitingValues(h), sendersOut := h.sendersOut + WaitingSenders(h),
                     receiversOut := h.receiversOut + WaitingReceivers(h))
  {
    RunIsFifo(sz, ops);
    AfterOne(sz, ops, Close);
    var r := After(sz, ops);
    Observed(r.chan, r.hist);
    if !r.chan.closed {
      RecordClose(r.hist, r.chan.senders, r.chan.receivers);
    }
  }

  // The history after the first `n` ready values were received.
  function Drained<T>(h: History<T>, n: nat): History<T> {
    h.(delivered := h.delivered + if n <= |Ready(h)| then Ready(h)[..n] else Ready(h))
  }

  lemma DrainedOnce<T>(c: Buffered<T>, h: History<T>, n: nat)
    requires Shape(c) && Fifo(c, h) && c.closed
    ensures var g := Drained(h, n);
            && Ready(g) == (if n <= |Ready(h)| then Ready(h)[n..] else [])
            && (Ready(g) != [] ==> Taken(g) == Drained(h, n + 1))
            && (Ready(g) == [] ==> g == Drained(h, n + 1))
  {
    Observed(c, h);
    var g, ready := Drained(h, n), Ready(h);
    if n <= |ready| {
      assert h.confirmed == g.delivered + ready[n..] by {
        assert ready == ready[..n] + ready[n..];
      }
      LeftOf(h.confirmed, g.delivered, ready[n..]);
      if n < |ready| {
        assert ready[..n + 1] == ready[..n] + [ready[n]];
      }
    } else {
      LeftOf(h.confirmed, g.delivered, []);
    }
  }

  // The run that goes on with `n` receives.
  function Receiving<T>(r: Run<T>, n: nat): Run<T> {
    if n == 0 then r else Extend(Receiving(r, n - 1), Recv(n - 1))
  }

  lemma OneMoreDrained<T>(c: Buffered<T>, h: History<T>, n: nat, c0: Buffered<T>, h0: History<T>)
    requires Shape(c) && Fifo(c, h) && c.closed && h == Drained(h0, n)
    requires Shape(c0) && Fifo(c0, h0) && c0.closed
    ensures var s := Step(c, Recv(n));
            && s.Stepped? && Shape(s.next) && s.next.closed && Fifo(s.next, Record(h, Recv(n), s.reply, s.wakes))
            && Record(h, Recv(n), s.reply, s.wakes) == Drained(h0, n + 1)
            && s.reply == RecvDone(if n < |Ready(h0)| then Some(Ready(h0)[n]) else None)
  {
    StepKeepsShape(c, Recv(n));
    StepKeepsFifo(c, h, Recv(n));
    DrainedOnce(c0, h0, n);
    Observed(c, h);
    if Ready(h) != [] { TakeAnswers(c, h, Recv(n)); }
  }

  lemma {:induction false} DrainsInOrder<T>(c0: Buffered<T>, h0: History<T>, n: nat)
    requires Shape(c0) && Fifo(c0, h0) && c0.closed
    ensures var r := Receiving(Live(c0, h0), n);
            r.Live? && r.hist == Drained(h0, n) && Shape(r.chan) && Fifo(r.chan, r.hist) && r.chan.closed
  {
    if n == 0 {
      assert h0.delivered + Ready(h0)[..0] == h0.delivered;
    } else {
      DrainsInOrder(c0, h0, n - 1);
      var r := Receiving(Live(c0, h0), n - 1);
      OneMoreDrained(r.chan, r.hist, n - 1, c0, h0);
    }
  }

  /** After a close the channel drains: the k-th receive from then on returns the k-th ready
      value, and every receive after these fails. */
  lemma ClosedChannelDrains<T>(sz: nat, ops: seq<Op<T>>, k: nat)
    requires After(sz, ops).Live? && Close in ops
    ensures var ready := Ready(After(sz, ops).hist); var r := Receiving(After(sz, ops), k);
            r.Live? && Step(r.chan, Recv(k)).Stepped?
            && Step(r.chan, Recv(k)).reply == RecvDone(if k < |ready| then Some(ready[k]) else None)
  {
    var Live(c, h) := After(sz, ops);
    RunIsFifo(sz, ops);
    DrainsInOrder(c, h, k);
    var r := Receiving(Live(c, h), k);
    OneMoreDrained(r.chan, r.hist, k, c, h);
  }

  // ---- The object ----

  class BufferedChannel<T(0)> {
    var closedFlag: bool
    const buf: CircularBuffer<T>
    var parkedSend: seq<Sender<T>>
    var parkedRecv: seq<nat>

    ghost predicate Valid()
      reads this, buf, buf.buffer
    {
      buf.Valid() && Shape(View())
    }

    ghost function View(): Buffered<T>
      requires buf.Valid()
      reads this, buf, buf.buffer
    {
      Buffered(buf.buffer.Length, closedFlag, buf.Contents(), parkedSend, parkedRecv)
    }

    constructor (sz: nat)
      ensures Valid() && View() == Init(sz) && fresh(buf) && fresh(buf.buffer)
    {
      closedFlag, parkedSend, parkedRecv := false, [], [];
      buf := new CircularBuffer<T>(if sz == 0 then 1 else sz);
    }

    method OnReadySend(id: nat, v: T) returns (reply: Reply<T>, wakes: seq<Wake<T>>)
      requires Valid()
      modifies this, buf, buf.buffer
      ensures Valid() && buf.buffer == old(buf.buffer)
      ensures Step(old(View()), Send(id, v)) == Stepped(View(), reply, wakes)
    {
      if closedFlag {
        reply, wakes := Stranded, [];
      } else if buf.used == buf.buffer.Length {
        parkedSend := parkedSend + [Sender(id, v)];
        reply, wakes := Suspended, [];
      } else {
        buf.Emplace(v);
        reply, wakes := SendDone(true), [];
        if |parkedRecv| > 0 {
          var t := buf.Front();
          buf.Pop();
          wakes := [ReceiverWoken(parkedRecv[0], Some(t))];
          parkedRecv := parkedRecv[1..];
        }
      }
    }

    // Takes the front value, and lets the first parked sender fill the slot.
    method TakeFront() returns (t: T, wakes: seq<Wake<T>>)
      requires Valid() && buf.used > 0
      modifies this, buf, buf.buffer
      ensures Valid() && buf.buffer == old(buf.buffer) && t == old(View()).buf[0]
      ensures forall reply :: Take(old(View()), reply) == Stepped(View(), reply, wakes)
    {
      t := buf.Front();
      buf.Pop();
      wakes := [];
      if |parkedSend| > 0 {
        buf.Emplace(parkedSend[0].value);
        wakes := [SenderWoken(parkedSend[0], true)];
        parkedSend := parkedSend[1..];
      }
    }

    method OnReadyRecv(id: nat) returns (reply: Reply<T>, wakes: seq<Wake<T>>)
      requires Valid()
      modifies this, buf, buf.buffer
      ensures Valid() && buf.buffer == old(buf.buffer)
      ensures Step(old(View()), Recv(id)) == Stepped(View(), reply, wakes)
    {
      wakes := [];
      if buf.used == 0 {
        if closedFlag {
          reply := RecvDone(None);
        } else {
          parkedRecv := parkedRecv + [id];
          reply := Suspended;
        }
      } else {
        var t;
        t, wakes := TakeFront();
        reply := RecvDone(Some(t));
      }
    }

    // `defined` turns false where the original reads the ring as a transfer record.
    method TrySend_(v: T) returns (defined: bool, reply: Reply<T>, wakes: seq<Wake<T>>)
      requires Valid()
      modifies this, buf, buf.buffer
      ensures !defined <==> Step(old(View()), TrySend(v)).Undefined?
      ensures defined ==> Valid() && buf.buffer == old(buf.buffer)
      ensures defined ==> Step(old(View()), TrySend(v)) == Stepped(View(), reply, wakes)
    {
      defined, wakes := true, [];
      if closedFlag {
        reply := TryClosed;
      } else if buf.used != buf.buffer.Length {
        buf.Emplace(v);
        reply := TrySent;
        defined := |parkedRecv| == 0;
      } else {
        reply := TryFailed;
      }
    }

    method TryRecv_() returns (reply: Reply<T>, wakes: seq<Wake<T>>)
      requires Valid()
      modifies this, buf, buf.buffer
      ensures Valid() && buf.buffer == old(buf.buffer)
      ensures Step(old(View()), TryRecv) == Stepped(View(), reply, wakes)
    {
      wakes := [];
      if buf.used == 0 {
        reply := if closedFlag then TryClosed else TryFailed;
      } else {
        var t;
        t, wakes := TakeFront();
        reply := TryGot(t);
      }
    }

    method CloseChannel() returns (wakes: seq<Wake<T>>)
      requires Valid()
      modifies this
      ensures Valid() && buf.buffer == old(buf.buffer)
      ensures Step(old(View()), Close) == Stepped(View(), Quiet, wakes)
    {
      wakes := [];
      if !closedFlag {
        closedFlag := true;
        ghost var n := 0;
        while |parkedSend| > 0
          invariant n <= |old(parkedSend)| && parkedSend == old(parkedSend)[n..]
          invariant closedFlag && parkedRecv == old(parkedRecv)
          invariant wakes == RefuseSenders(old(parkedSend)[..n])
          decreases |parkedSend|
        {
          wakes := wakes + [SenderWoken(parkedSend[0], false)];
          parkedSend := parkedSend[1..];
          n := n + 1;
        }
        assert old(parkedSend)[..n] == old(parkedSend);
        n := 0;
        while |parkedRecv| > 0
          invariant n <= |old(parkedRecv)| && parkedRecv == old(parkedRecv)[n..]
          invariant closedFlag && parkedSend == []
          invariant wakes == RefuseSenders(old(parkedSend)) + RefuseReceivers(old(parkedRecv)[..n])
          decreases |parkedRecv|
        {
          wakes := wakes + [ReceiverWoken(parkedRecv[0], None)];
          parkedRecv := parkedRecv[1..];
          n := n + 1;
        }
        assert old(parkedRecv)[..n] == old(parkedRecv);
      }
    }
  }
}
