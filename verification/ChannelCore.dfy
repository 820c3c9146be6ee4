/** What the three channel implementations have in common: the operations, the
    answers and wake-ups they produce, and the history an observer keeps of them. */
module ChannelCore {

  datatype Option<+T> = None | Some(value: T)

  // A send awaiter parked in a channel, with the value it holds for transfer.
  datatype Sender<T> = Sender(id: nat, value: T)

  // One critical section of a channel.  Awaited operations carry their awaiter's id.
  datatype Op<T> = Send(id: nat, v: T) | Recv(id: nat) | TrySend(v: T) | TryRecv | Close

  datatype Reply<+T> =
    | SendDone(ok: bool)           // a send that completes without suspending
    | RecvDone(got: Option<T>)     // a receive that completes without suspending
    | Suspended                    // the awaiter parked itself in the channel
    | Stranded                     // the awaiter suspends, but nothing refers to it
    | TryClosed | TryFailed | TrySent | TryGot(v: T)
    | Quiet                        // close() answers nothing

  // A call of resume() on a parked awaiter, with what on_resume() made of its argument.
  datatype Wake<T> = SenderWoken(s: Sender<T>, ok: bool) | ReceiverWoken(id: nat, got: Option<T>)

  /** Everything an observer of the answers and wake-ups can write down. */
  datatype History<T> = History(
    accepted: seq<T>,      // values of sends that were not refused, in arrival order
    confirmed: seq<T>,     // values whose send reported success, in that order
    delivered: seq<T>,     // values that receives returned
    dropped: seq<T>,       // values of parked senders that were refused by close()
    sendersIn: seq<nat>,   // awaiters that parked, and those that were resumed
    sendersOut: seq<nat>,
    receiversIn: seq<nat>,
    receiversOut: seq<nat>,
    stranded: seq<nat>)

  function Empty<T>(): History<T> {
    History([], [], [], [], [], [], [], [], [])
  }

  function Values<T>(ss: seq<Sender<T>>): (r: seq<T>)
    ensures |r| == |ss| && forall i | 0 <= i < |ss| :: r[i] == ss[i].value
  {
    if ss == [] then [] else [ss[0].value] + Values(ss[1..])
  }

  function Ids<T>(ss: seq<Sender<T>>): (r: seq<nat>)
    ensures |r| == |ss| && forall i | 0 <= i < |ss| :: r[i] == ss[i].id
  {
    if ss == [] then [] else [ss[0].id] + Ids(ss[1..])
  }

  function RecordWake<T>(h: History<T>, w: Wake<T>): History<T> {
    match w
    case SenderWoken(s, ok) =>
      if ok then h.(confirmed := h.confirmed + [s.value], sendersOut := h.sendersOut + [s.id])
      else h.(dropped := h.dropped + [s.value], sendersOut := h.sendersOut + [s.id])
    case ReceiverWoken(id, got) =>
      var h1 := h.(receiversOut := h.receiversOut + [id]);
      if got.Some? then h1.(delivered := h1.delivered + [got.value]) else h1
  }

  function RecordWakes<T>(h: History<T>, ws: seq<Wake<T>>): History<T>
    decreases |ws|
  {
    if ws == [] then h else RecordWakes(RecordWake(h, ws[0]), ws[1..])
  }

  function RecordReply<T>(h: History<T>, op: Op<T>, reply: Reply<T>): History<T> {
    match (op, reply)
    case (Send(_, v), SendDone(ok)) =>
      if ok then h.(accepted := h.accepted + [v], confirmed := h.confirmed + [v]) else h
    case (Send(id, v), Suspended) =>
      h.(accepted := h.accepted + [v], sendersIn := h.sendersIn + [id])
    case (Send(id, _), Stranded) => h.(stranded := h.stranded + [id])
    case (Recv(_), RecvDone(Some(v))) => h.(delivered := h.delivered + [v])
    case (Recv(id), Suspended) => h.(receiversIn := h.receiversIn + [id])
    case (TrySend(v), TrySent) => h.(accepted := h.accepted + [v], confirmed := h.confirmed + [v])
    case (TryRecv, TryGot(v)) => h.(delivered := h.delivered + [v])
    case _ => h
  }

  function Record<T>(h: History<T>, op: Op<T>, reply: Reply<T>, wakes: seq<Wake<T>>): History<T> {
    RecordWakes(RecordReply(h, op, reply), wakes)
  }

  // The wake-ups close() issues while it drains the two queues.
  function RefuseSenders<T>(ss: seq<Sender<T>>): seq<Wake<T>> {
    seq(|ss|, i requires 0 <= i < |ss| => SenderWoken(ss[i], false))
  }

  function RefuseReceivers<T>(rs: seq<nat>): seq<Wake<T>> {
    seq(|rs|, i requires 0 <= i < |rs| => ReceiverWoken(rs[i], None))
  }

  lemma {:induction false} RecordWakesConcat<T>(h: History<T>, a: seq<Wake<T>>, b: seq<Wake<T>>)
    ensures RecordWakes(h, a + b) == RecordWakes(RecordWakes(h, a), b)
    decreases |a|
  {
    if a == [] {
      assert a + b == b;
    } else {
      assert (a + b)[1..] == a[1..] + b;
      RecordWakesConcat(RecordWake(h, a[0]), a[1..], b);
    }
  }

  lemma {:induction false} RecordRefusedSenders<T>(h: History<T>, ss: seq<Sender<T>>)
    ensures RecordWakes(h, RefuseSenders(ss))
         == h.(dropped := h.dropped + Values(ss), sendersOut := h.sendersOut + Ids(ss))
    decreases |ss|
  {
    if ss == [] {
      assert h.dropped + Values(ss) == h.dropped && h.sendersOut + Ids(ss) == h.sendersOut;
    } else {
      var h1 := RecordWake(h, SenderWoken(ss[0], false));
      assert RecordWakes(h, RefuseSenders(ss)) == RecordWakes(h1, RefuseSenders(ss[1..])) by {
        assert RefuseSenders(ss)[1..] == RefuseSenders(ss[1..]);
      }
      RecordRefusedSenders(h1, ss[1..]);
      Regroup(h.dropped, ss[0].value, Values(ss[1..]));
      Regroup(h.sendersOut, ss[0].id, Ids(ss[1..]));
    }
  }

  lemma Regroup<T>(a: seq<T>, x: T, b: seq<T>)
    ensures a + [x] + b == a + ([x] + b)
  {
  }

  lemma {:induction false} RecordRefusedReceivers<T>(h: History<T>, rs: seq<nat>)
    ensures RecordWakes(h, RefuseReceivers<T>(rs)) == h.(receiversOut := h.receiversOut + rs)
    decreases |rs|
  {
    if rs != [] {
      assert RefuseReceivers<T>(rs)[1..] == RefuseReceivers<T>(rs[1..]);
      RecordRefusedReceivers(RecordWake(h, ReceiverWoken(rs[0], None)), rs[1..]);
      assert h.receiversOut + [rs[0]] + rs[1..] == h.receiversOut + rs;
    } else {
      assert h.receiversOut + rs == h.receiversOut;
    }
  }

  /** close() refuses every parked awaiter once, in queue order, and changes nothing else. */
  lemma RecordClose<T>(h: History<T>, ss: seq<Sender<T>>, rs: seq<nat>)
    ensures Record(h, Close, Quiet, RefuseSenders(ss) + RefuseReceivers(rs))
         == h.(dropped := h.dropped + Values(ss), sendersOut := h.sendersOut + Ids(ss),
               receiversOut := h.receiversOut + rs)
  {
    RecordWakesConcat(h, RefuseSenders(ss), RefuseReceivers(rs));
    RecordRefusedSenders(h, ss);
    RecordRefusedReceivers(RecordWakes(h, RefuseSenders(ss)), rs);
  }

  /** One value leaves the front of a store and another enters at its back. */
  lemma PassThrough<T>(entered: seq<T>, left: seq<T>, store: seq<T>, v: T)
    requires entered == left + store && store != []
    ensures entered == (left + [store[0]]) + store[1..]
    ensures entered + [v] == (left + [store[0]]) + (store[1..] + [v])
  {
  }

  // A single wake-up: the recursion of RecordWakes unfolded.
  lemma RecordOne<T>(h: History<T>, op: Op<T>, reply: Reply<T>, w: Wake<T>)
    ensures Record(h, op, reply, [w]) == RecordWake(RecordReply(h, op, reply), w)
  {
    var g := RecordReply(h, op, reply);
    calc {
      RecordWakes(g, [w]);
      RecordWakes(RecordWake(g, w), [w][1..]);
      { assert [w][1..] == []; }
      RecordWakes(RecordWake(g, w), []);
      RecordWake(g, w);
    }
  }

  lemma {:induction false} WakesStrandNobody<T>(h: History<T>, ws: seq<Wake<T>>)
    ensures RecordWakes(h, ws).stranded == h.stranded
    decreases |ws|
  {
    if ws == [] {
    } else {
      WakesStrandNobody(RecordWake(h, ws[0]), ws[1..]);
    }
  }

  lemma ParkSender<T>(ss: seq<Sender<T>>, s: Sender<T>)
    ensures Values(ss + [s]) == Values(ss) + [s.value] && Ids(ss + [s]) == Ids(ss) + [s.id]
  {
  }

  lemma UnparkSender<T>(ss: seq<Sender<T>>)
    requires ss != []
    ensures Values(ss) == [ss[0].value] + Values(ss[1..]) && Ids(ss) == [ss[0].id] + Ids(ss[1..])
  {
  }

  // ---- What an observer can tell from the history alone ----

  // What is left of `entered` when the first ones have left.
  function Left<T>(entered: seq<T>, left: seq<T>): seq<T> {
    if |left| <= |entered| then entered[|left|..] else []
  }

  // Values whose sends succeeded and that nobody received yet.
  function Ready<T>(h: History<T>): seq<T> {
    Left(h.confirmed, h.delivered)
  }

  // Parked parties that were not resumed, in the order they arrived.
  function WaitingSenders<T>(h: History<T>): seq<nat> {
    Left(h.sendersIn, h.sendersOut)
  }

  function WaitingReceivers<T>(h: History<T>): seq<nat> {
    Left(h.receiversIn, h.receiversOut)
  }

  // The values that waiting senders hold.
  function WaitingValues<T>(h: History<T>): seq<T> {
    var rest := Left(h.accepted, h.confirmed);
    if |WaitingSenders(h)| <= |rest| then rest[..|WaitingSenders(h)|] else []
  }

  lemma LeftOf<T>(entered: seq<T>, left: seq<T>, store: seq<T>)
    requires entered == left + store
    ensures Left(entered, left) == store
  {
  }

  // The first one, if there is any.
  function Head<T>(s: seq<T>): seq<T> {
    if s == [] then [] else s[..1]
  }

  // The history after a receive that got the first value that was ready.
  function Taken<T>(h: History<T>): History<T>
    requires Ready(h) != []
  {
    h.(delivered := h.delivered + [Ready(h)[0]], confirmed := h.confirmed + Head(WaitingValues(h)),
       sendersOut := h.sendersOut + Head(WaitingSenders(h)))
  }

  // The history after a send that stored its value; `h` is the history without the send.
  function Stored<T>(h: History<T>, v: T): History<T> {
    h.(accepted := h.accepted + [v], confirmed := h.confirmed + [v],
       delivered := h.delivered + if WaitingReceivers(h) == [] then [] else [v],
       receiversOut := h.receiversOut + Head(WaitingReceivers(h)))
  }

  lemma Associate<T>(a: seq<T>, b: seq<T>, c: seq<T>)
    ensures a + b + c == a + (b + c)
  {
  }

  lemma ClosedBy<T>(front: seq<Op<T>>, last: Op<T>)
    ensures Close in front + [last] <==> Close in front || last == Close
  {
  }
}
