/** The unlimited channel: sends never wait, receivers park while the queue is empty. */
module UnlimitedChannel {
  import opened ChannelCore

  datatype Unlimited<T> = Unlimited(closed: bool, queue: seq<T>, receivers: seq<nat>)

  datatype Outcome<T> = Stepped(next: Unlimited<T>, reply: Reply<T>, wakes: seq<Wake<T>>)

  function Init<T>(): Unlimited<T> {
    Unlimited(false, [], [])
  }

  // Appends `v`, and lets the first parked receiver take the front of the queue.
  function Put<T>(c: Unlimited<T>, v: T, reply: Reply<T>): Outcome<T> {
    var queue := c.queue + [v];
    if c.receivers == [] then Stepped(c.(queue := queue), reply, [])
    else Stepped(c.(queue := queue[1..], receivers := c.receivers[1..]), reply,
                 [ReceiverWoken(c.receivers[0], Some(queue[0]))])
  }

  function Step<T>(c: Unlimited<T>, op: Op<T>): Outcome<T> {
    match op
    case Send(id, v) => if c.closed then Stepped(c, SendDone(false), []) else Put(c, v, SendDone(true))
    case TrySend(v) => if c.closed then Stepped(c, TryClosed, []) else Put(c, v, TrySent)
    case Recv(id) =>
      if c.queue != [] then Stepped(c.(queue := c.queue[1..]), RecvDone(Some(c.queue[0])), [])
      else if c.closed then Stepped(c, RecvDone(None), [])
      else Stepped(c.(receivers := c.receivers + [id]), Suspended, [])
    case TryRecv =>
      if c.queue != [] then Stepped(c.(queue := c.queue[1..]), TryGot(c.queue[0]), [])
      else if c.closed then Stepped(c, TryClosed, [])
      else Stepped(c, TryFailed, [])
    case Close =>
      if c.closed then Stepped(c, Quiet, [])
      else Stepped(c.(closed := true, receivers := []), Quiet, RefuseReceivers(c.receivers))
  }

  datatype Run<T> = Run(chan: Unlimited<T>, hist: History<T>)

  function Extend<T>(r: Run<T>, op: Op<T>): Run<T> {
    var s := Step(r.chan, op);
    Run(s.next, Record(r.hist, op, s.reply, s.wakes))
  }

  function After<T>(ops: seq<Op<T>>): Run<T> {
    if ops == [] then Run(Init(), Empty()) else Extend(After(ops[..|ops| - 1]), ops[|ops| - 1])
  }

  /** Receivers wait only while the channel is open and empty. */
  ghost predicate Shape<T>(c: Unlimited<T>) {
    c.receivers != [] ==> c.queue == [] && !c.closed
  }

  ghost predicate Fifo<T>(r: Run<T>) {
    && Shape(r.chan)
    && r.hist.confirmed == r.hist.delivered + r.chan.queue
    && r.hist.accepted == r.hist.confirmed
    && r.hist.dropped == [] && r.hist.sendersIn == [] && r.hist.sendersOut == []
    && r.hist.receiversIn == r.hist.receiversOut + r.chan.receivers
  }

  lemma PutKeepsFifo<T>(r: Run<T>, op: Op<T>)
    requires Fifo(r) && (op.Send? || op.TrySend?)
    ensures Fifo(Extend(r, op))
  {
    var s := Step(r.chan, op);
    if s.wakes != [] {
      RecordOne(r.hist, op, s.reply, s.wakes[0]);
      assert r.chan.receivers == [r.chan.receivers[0]] + r.chan.receivers[1..];
      Regroup(r.hist.receiversOut, r.chan.receivers[0], r.chan.receivers[1..]);
    } else if !r.chan.closed {
      assert r.hist.confirmed + [op.v] == r.hist.delivered + (r.chan.queue + [op.v]);
    }
  }

  lemma StepKeepsFifo<T>(r: Run<T>, op: Op<T>)
    requires Fifo(r)
    ensures Fifo(Extend(r, op))
  {
    if op.Close? {
      if !r.chan.closed {
        RecordRefusedReceivers(r.hist, r.chan.receivers);
      }
    } else if op.Send? || op.TrySend? {
      PutKeepsFifo(r, op);
    } else if r.chan.queue != [] {
      PassThrough(r.hist.confirmed, r.hist.delivered, r.chan.queue, r.chan.queue[0]);
    }
  }

  /** In every run, values come out in the order they went in, none is lost or duplicated,
      and every parked receiver is resumed exactly once. */
  lemma {:induction false} RunIsFifo<T>(ops: seq<Op<T>>)
    ensures Fifo(After(ops))
    decreases |ops|
  {
    if ops == [] {
    } else {
      RunIsFifo(ops[..|ops| - 1]);
      StepKeepsFifo(After(ops[..|ops| - 1]), ops[|ops| - 1]);
    }
  }

  // The answers to `n` receives made one after the other.
  function Receives<T>(c: Unlimited<T>, n: nat): seq<Reply<T>>
    decreases n
  {
    if n == 0 then [] else [Step(c, Recv(0)).reply] + Receives(Step(c, Recv(0)).next, n - 1)
  }

  /** Once closed, receives return every remaining value in order, and only then fail. */
  lemma {:induction false} ClosedChannelDrains<T>(c: Unlimited<T>, n: nat, k: nat)
    requires c.closed && k < n
    ensures |Receives(c, n)| == n
    ensures Receives(c, n)[k] == RecvDone(if k < |c.queue| then Some(c.queue[k]) else None)
    decreases n
  {
    var next := Step(c, Recv(0)).next;
    if k > 0 {
      ClosedChannelDrains(next, n - 1, k - 1);
    } else if n > 1 {
      ClosedChannelDrains(next, n - 1, 0);
    }
  }

  // ---- What each operation achieves, told from the history alone ----

  lemma AfterOne<T>(ops: seq<Op<T>>, op: Op<T>)
    ensures After(ops + [op]) == Extend(After(ops), op)
  {
    assert (ops + [op])[..|ops|] == ops;
  }

  // The answer to `op` made after `ops`.
  function Answer<T>(ops: seq<Op<T>>, op: Op<T>): Reply<T> {
    Step(After(ops).chan, op).reply
  }

  lemma StepCloses<T>(c: Unlimited<T>, op: Op<T>)
    ensures Step(c, op).next.closed <==> c.closed || op.Close?
  {
  }

  lemma {:induction false} ClosedOnceClosed<T>(ops: seq<Op<T>>)
    ensures After(ops).chan.closed <==> Close in ops
    decreases |ops|
  {
    if ops == [] {
    } else {
      var front, last := ops[..|ops| - 1], ops[|ops| - 1];
      assert ops == front + [last];
      ClosedOnceClosed(front);
      ClosedBy(front, last);
      StepCloses(After(front).chan, last);
    }
  }

  // What the history says of the channel.
  lemma Observed<T>(r: Run<T>)
    requires Fifo(r)
    ensures Ready(r.hist) == r.chan.queue && WaitingReceivers(r.hist) == r.chan.receivers
    ensures WaitingSenders(r.hist) == [] && WaitingValues(r.hist) == []
  {
    LeftOf(r.hist.confirmed, r.hist.delivered, r.chan.queue);
    LeftOf(r.hist.receiversIn, r.hist.receiversOut, r.chan.receivers);
  }

  lemma PutAnswers<T>(r: Run<T>, op: Op<T>)
    requires Fifo(r) && (op.Send? || op.TrySend?) && !r.chan.closed
    ensures Step(r.chan, op).reply == if op.Send? then SendDone(true) else TrySent
    ensures Extend(r, op).hist == Stored(r.hist, op.v)
  {
    Observed(r);
    var s := Step(r.chan, op);
    if s.wakes != [] {
      RecordOne(r.hist, op, s.reply, s.wakes[0]);
    }
  }

  /** A send succeeds exactly while the channel is open, and hands its value to the first waiting
      receiver; it never waits. */
  lemma SendAnswers<T>(ops: seq<Op<T>>, id: nat, v: T)
    ensures var h, h' := After(ops).hist, After(ops + [Send(id, v)]).hist;
            if Close in ops then Answer(ops, Send(id, v)) == SendDone(false) && h' == h
            else Answer(ops, Send(id, v)) == SendDone(true) && h' == Stored(h, v)
  {
    RunIsFifo(ops);
    ClosedOnceClosed(ops);
    AfterOne(ops, Send(id, v));
    if Close !in ops { PutAnswers(After(ops), Send(id, v)); }
  }

  lemma TrySendAnswers<T>(ops: seq<Op<T>>, v: T)
    ensures var h, h' := After(ops).hist, After(ops + [TrySend(v)]).hist;
            if Close in ops then Answer(ops, TrySend(v)) == TryClosed && h' == h
            else Answer(ops, TrySend(v)) == TrySent && h' == Stored(h, v)
  {
    RunIsFifo(ops);
    ClosedOnceClosed(ops);
    AfterOne(ops, TrySend(v));
    if Close !in ops { PutAnswers(After(ops), TrySend(v)); }
  }

  /** A receive returns the first value sent and not yet received whenever there is one, open or
      closed.  With none it fails exactly after a close, and waits otherwise. */
  lemma ReceiveAnswers<T>(ops: seq<Op<T>>, id: nat)
    ensures var h, h' := After(ops).hist, After(ops + [Recv(id)]).hist;
            var answer := Answer(ops, Recv(id));
            if Ready(h) != [] then answer == RecvDone(Some(Ready(h)[0])) && h' == Taken(h)
            else if Close in ops then answer == RecvDone(None) && h' == h
            else answer == Suspended && h' == h.(receiversIn := h.receiversIn + [id])
  {
    RunIsFifo(ops);
    ClosedOnceClosed(ops);
    AfterOne(ops, Recv(id));
    Observed(After(ops));
  }

  /** A try_recv() returns that value too; with none it answers closed exactly after a close,
      and fails otherwise. */
  lemma TryReceiveAnswers<T>(ops: seq<Op<T>>)
    ensures var h, h' := After(ops).hist, After(ops + [TryRecv]).hist;
            var answer := Answer(ops, TryRecv);
            if Ready(h) != [] then answer == TryGot(Ready(h)[0]) && h' == Taken(h)
            else answer == (if Close in ops then TryClosed else TryFailed) && h' == h
  {
    RunIsFifo(ops);
    ClosedOnceClosed(ops);
    AfterOne(ops, TryRecv);
    Observed(After(ops));
  }

  /** A close refuses every waiting receiver, in order, and touches no ready value. */
  lemma CloseAnswers<T>(ops: seq<Op<T>>)
    ensures var h, h' := After(ops).hist, After(ops + [Close]).hist;
            h' == h.(receiversOut := h.receiversOut + WaitingReceivers(h))
  {
    RunIsFifo(ops);
    AfterOne(ops, Close);
    var r := After(ops);
    Observed(r);
    if !r.chan.closed {
      RecordRefusedReceivers(r.hist, r.chan.receivers);
    }
  }

  class UnlimitedChannel<T> {
    var closedFlag: bool
    var queue: seq<T>
    var parkedRecv: seq<nat>

    ghost function View(): Unlimited<T>
      reads this
    {
      Unlimited(closedFlag, queue, parkedRecv)
    }

    constructor ()
      ensures View() == Init()
    {
      closedFlag, queue, parkedRecv := false, [], [];
    }

    // Resumes the first parked receiver with the front of the queue, if there is one.
    method Feed() returns (wakes: seq<Wake<T>>)
      requires queue != []
      modifies this
      ensures closedFlag == old(closedFlag)
      ensures old(parkedRecv) == [] ==> wakes == [] && View() == old(View())
      ensures old(parkedRecv) != [] ==> wakes == [ReceiverWoken(old(parkedRecv)[0], Some(old(queue)[0]))]
      ensures old(parkedRecv) != [] ==> queue == old(queue)[1..] && parkedRecv == old(parkedRecv)[1..]
    {
      wakes := [];
      if |parkedRecv| > 0 {
        wakes := [ReceiverWoken(parkedRecv[0], Some(queue[0]))];
        queue := queue[1..];
        parkedRecv := parkedRecv[1..];
      }
    }

    method OnReadySend(id: nat, v: T) returns (reply: Reply<T>, wakes: seq<Wake<T>>)
      modifies this
      ensures Step(old(View()), Send(id, v)) == Stepped(View(), reply, wakes)
    {
      if closedFlag {
        reply, wakes := SendDone(false), [];
      } else {
        queue := queue + [v];
        wakes := Feed();
        reply := SendDone(true);
      }
    }

    method OnReadyRecv(id: nat) returns (reply: Reply<T>, wakes: seq<Wake<T>>)
      modifies this
      ensures Step(old(View()), Recv(id)) == Stepped(View(), reply, wakes)
    {
      wakes := [];
      if |queue| == 0 {
        if closedFlag {
          reply := RecvDone(None);
        } else {
          parkedRecv := parkedRecv + [id];
          reply := Suspended;
        }
      } else {
        reply := RecvDone(Some(queue[0]));
        queue := queue[1..];
      }
    }

    method TrySend_(v: T) returns (reply: Reply<T>, wakes: seq<Wake<T>>)
      modifies this
      ensures Step(old(View()), TrySend(v)) == Stepped(View(), reply, wakes)
    {
      if closedFlag {
        reply, wakes := TryClosed, [];
      } else {
        queue := queue + [v];
        wakes := Feed();
        reply := TrySent;
      }
    }

    method TryRecv_() returns (reply: Reply<T>)
      modifies this
      ensures Step(old(View()), TryRecv) == Stepped(View(), reply, [])
    {
      if |queue| == 0 {
        reply := if closedFlag then TryClosed else TryFailed;
      } else {
        reply := TryGot(queue[0]);
        queue := queue[1..];
      }
    }

    method CloseChannel() returns (wakes: seq<Wake<T>>)
      modifies this
      ensures Step(old(View()), Close) == Stepped(View(), Quiet, wakes)
    {
      wakes := [];
      if !closedFlag {
        closedFlag := true;
        ghost var n := 0;
        while |parkedRecv| > 0
          invariant n <= |old(parkedRecv)| && parkedRecv == old(parkedRecv)[n..]
          invariant closedFlag && queue == old(queue)
          invariant wakes == RefuseReceivers(old(parkedRecv)[..n])
          decreases |parkedRecv|
        {
          wakes := wakes + [ReceiverWoken(parkedRecv[0], None)];
          parkedRecv := parkedRecv[1..];
          n := n + 1;
        }
        assert old(parkedRecv)[..n] == old(parkedRecv);
      }
    }
  }
}
