/** A scope joins the awaitables added to it: add() sends them into an unlimited
    channel, and a root coroutine receives and awaits them one by one until the
    closed channel is drained.  add() tests for closure and sends in separate
    critical sections, so another thread's await() can come in between. */
module Scope {
  import opened ChannelCore
  import UC = UnlimitedChannel

  datatype Root = Receiving | Waiting | Awaiting(id: nat) | Finished

  datatype Scope = Scope(
    chan: UC.Unlimited<nat>,
    root: Root,
    awaited: seq<nat>,    // awaitables the root coroutine has joined with
    pending: seq<nat>,    // awaitables whose add() saw an open channel and has yet to send
    promised: seq<nat>,   // awaitables for which add() returns true
    accepted: seq<nat>,   // awaitables the channel took
    lost: seq<nat>)       // awaitables whose send was refused after all

  datatype Action =
    | Add(ids: seq<nat>)  // the closed() test of add(), by any thread
    | SendOne(i: nat)     // one send of some add() in progress
    | RootTurn            // the root coroutine runs up to its next await
    | CloseScope          // await() or the destructor

  function Init(): Scope {
    Scope(UC.Init(), Receiving, [], [], [], [], [])
  }

  // The root coroutine after recv() answered.
  function Answered(got: Option<nat>): Root {
    if got.Some? then Awaiting(got.value) else Finished
  }

  function Woken(root: Root, wakes: seq<Wake<nat>>): Root {
    if wakes != [] && wakes[0].ReceiverWoken? then Answered(wakes[0].got) else root
  }

  function Step(s: Scope, a: Action): Scope {
    match a
    case Add(ids) =>
      if s.chan.closed then s
      else s.(pending := s.pending + ids, promised := s.promised + ids)
    case SendOne(i) =>
      if i >= |s.pending| then s
      else
        var id := s.pending[i];
        var sent := UC.Step(s.chan, Send(0, id));
        var s1 := s.(chan := sent.next, root := Woken(s.root, sent.wakes),
                     pending := s.pending[..i] + s.pending[i + 1..]);
        if sent.reply == SendDone(true) then s1.(accepted := s.accepted + [id])
        else s1.(lost := s.lost + [id])
    case RootTurn =>
      if s.root.Receiving? then
        var got := UC.Step(s.chan, Recv(0));
        s.(chan := got.next, root := if got.reply.RecvDone? then Answered(got.reply.got) else Waiting)
      else if s.root.Awaiting? then s.(root := Receiving, awaited := s.awaited + [s.root.id])
      else s
    case CloseScope =>
      var closed := UC.Step(s.chan, Close);
      s.(chan := closed.next, root := Woken(s.root, closed.wakes))
  }

  function After(acts: seq<Action>): Scope {
    if acts == [] then Init() else Step(After(acts[..|acts| - 1]), acts[|acts| - 1])
  }

  function InHand(root: Root): seq<nat> {
    if root.Awaiting? then [root.id] else []
  }

  /** The root joins awaitables in the order the channel accepted them, and ends only
      when all are joined. */
  ghost predicate Ordered(s: Scope) {
    && UC.Shape(s.chan)
    && s.chan.receivers == (if s.root.Waiting? then [0] else [])
    && s.accepted == s.awaited + (InHand(s.root) + s.chan.queue)
    && (s.root.Finished? ==> s.chan.closed && s.chan.queue == [])
  }

  /** Every promised awaitable was accepted, is about to be sent, or is lost. */
  ghost predicate Conserved(s: Scope) {
    && multiset(s.promised) == multiset(s.accepted) + multiset(s.pending) + multiset(s.lost)
    && (s.lost != [] ==> s.chan.closed)
  }

  ghost predicate Inv(s: Scope) {
    Ordered(s) && Conserved(s)
  }

  lemma SendKeepsOrder(s: Scope, i: nat)
    requires Ordered(s) && i < |s.pending|
    ensures Ordered(Step(s, SendOne(i)))
  {
    var id := s.pending[i];
    if !s.chan.closed {
      if s.root.Waiting? {
        assert s.chan.queue == [] && s.accepted == s.awaited;
        assert s.accepted + [id] == s.awaited + ([id] + []);
      } else {
        assert s.accepted + [id] == s.awaited + (InHand(s.root) + (s.chan.queue + [id]));
      }
    }
  }

  lemma RootKeepsOrder(s: Scope)
    requires Ordered(s)
    ensures Ordered(Step(s, RootTurn))
  {
    if s.root.Receiving? && s.chan.queue != [] {
      assert s.chan.queue == [s.chan.queue[0]] + s.chan.queue[1..];
    } else if s.root.Awaiting? {
      assert s.accepted == (s.awaited + [s.root.id]) + s.chan.queue;
      assert Step(s, RootTurn).accepted == Step(s, RootTurn).awaited + ([] + s.chan.queue);
    }
  }

  lemma TakenOut(s: seq<nat>, i: nat)
    requires i < |s|
    ensures multiset(s) == multiset(s[..i] + s[i + 1..]) + multiset{s[i]}
  {
    assert s == s[..i] + ([s[i]] + s[i + 1..]);
  }

  lemma PutBehind(s: seq<nat>, x: nat)
    ensures multiset(s + [x]) == multiset(s) + multiset{x}
  {
  }

  lemma SendMovesOne(s: Scope, i: nat)
    requires i < |s.pending|
    ensures var t := Step(s, SendOne(i)); var id := s.pending[i];
            && t.promised == s.promised && t.chan.closed == s.chan.closed
            && t.pending == s.pending[..i] + s.pending[i + 1..]
            && t.accepted == (if s.chan.closed then s.accepted else s.accepted + [id])
            && t.lost == (if s.chan.closed then s.lost + [id] else s.lost)
  {
  }

  lemma SendConserves(s: Scope, i: nat)
    requires Conserved(s) && i < |s.pending|
    ensures Conserved(Step(s, SendOne(i)))
  {
    SendMovesOne(s, i);
    TakenOut(s.pending, i);
    if s.chan.closed {
      PutBehind(s.lost, s.pending[i]);
    } else {
      PutBehind(s.accepted, s.pending[i]);
    }
  }

  lemma AddKeepsInv(s: Scope, ids: seq<nat>)
    requires Inv(s)
    ensures Inv(Step(s, Add(ids)))
  {
  }

  lemma CloseKeepsInv(s: Scope)
    requires Inv(s)
    ensures Inv(Step(s, CloseScope))
  {
    if !s.chan.closed && s.root.Waiting? {
      assert RefuseReceivers<nat>(s.chan.receivers) == [ReceiverWoken(0, None)];
    }
  }

  lemma StepKeepsInv(s: Scope, a: Action)
    requires Inv(s)
    ensures Inv(Step(s, a))
  {
    match a
    case Add(ids) => AddKeepsInv(s, ids);
    case SendOne(i) => if i < |s.pending| { SendKeepsOrder(s, i); SendConserves(s, i); }
    case RootTurn => RootKeepsOrder(s);
    case CloseScope => CloseKeepsInv(s);
  }

  lemma {:induction false} RunKeepsInv(acts: seq<Action>)
    ensures Inv(After(acts))
    decreases |acts|
  {
    if acts == [] {
    } else {
      RunKeepsInv(acts[..|acts| - 1]);
      StepKeepsInv(After(acts[..|acts| - 1]), acts[|acts| - 1]);
    }
  }

  lemma NothingAdded(a: multiset<nat>, s: seq<nat>, t: seq<nat>)
    ensures a + multiset(s) + multiset(t) == a <==> s == [] && t == []
  {
    assert |a + multiset(s) + multiset(t)| == |a| + |s| + |t|;
  }

  /** When the root coroutine has ended, exactly the awaitables that the channel accepted were
      awaited, in that order.  What add() promised is those, the ones it has yet to send, and
      the lost ones: all were awaited if and only if there are no others. */
  lemma FinishedRootJoinedAll(acts: seq<Action>)
    requires After(acts).root.Finished?
    ensures var s := After(acts);
            && s.awaited == s.accepted
            && multiset(s.promised) == multiset(s.awaited) + multiset(s.pending) + multiset(s.lost)
            && (multiset(s.promised) == multiset(s.awaited) <==> s.pending == [] && s.lost == [])
  {
    RunKeepsInv(acts);
    var s := After(acts);
    NothingAdded(multiset(s.awaited), s.pending, s.lost);
  }

  // A send of an add() in progress is made after the channel was closed.
  predicate SendsLate(before: seq<Action>, a: Action) {
    a.SendOne? && a.i < |After(before).pending| && After(before).chan.closed
  }

  ghost predicate NoLateSend(acts: seq<Action>) {
    forall k | 0 <= k < |acts| :: !SendsLate(acts[..k], acts[k])
  }

  lemma NoLateSendSplit(front: seq<Action>, a: Action)
    ensures NoLateSend(front + [a]) <==> NoLateSend(front) && !SendsLate(front, a)
  {
    var acts := front + [a];
    assert forall k | 0 <= k <= |front| :: acts[..k] == front[..k];
    assert front[..|front|] == front && acts[|front|] == a;
    if NoLateSend(acts) {
      forall k | 0 <= k < |front| ensures !SendsLate(front[..k], front[k]) {
        assert !SendsLate(acts[..k], acts[k]);
      }
    }
  }

  lemma StepLoses(s: Scope, a: Action)
    ensures Step(s, a).lost == [] <==> s.lost == [] && !(a.SendOne? && a.i < |s.pending| && s.chan.closed)
  {
    if a.SendOne? && a.i < |s.pending| {
      SendMovesOne(s, a.i);
    }
  }

  /** An awaitable is lost exactly when some add() sends after await() closed the scope. */
  lemma {:induction false} LostExactlyWhenLate(acts: seq<Action>)
    ensures After(acts).lost == [] <==> NoLateSend(acts)
    decreases |acts|
  {
    if acts == [] {
    } else {
      var front, last := acts[..|acts| - 1], acts[|acts| - 1];
      assert acts == front + [last];
      NoLateSendSplit(front, last);
      LostExactlyWhenLate(front);
      StepLoses(After(front), last);
    }
  }

  /** add() promises awaitable 5, but await() closes the scope before the send. */
  lemma PromiseLost()
    ensures var s := After([Add([5]), CloseScope, SendOne(0), RootTurn]);
            s.promised == [5] && s.awaited == [] && s.root.Finished? && s.lost == [5]
  {
    var a1, a2, a3, a4 := [Add([5])], [Add([5]), CloseScope], [Add([5]), CloseScope, SendOne(0)],
                          [Add([5]), CloseScope, SendOne(0), RootTurn];
    assert a4[..3] == a3 && a3[..2] == a2 && a2[..1] == a1 && a1[..0] == [];
    assert After(a1) == Init().(pending := [5], promised := [5]);
    assert After(a2).chan.closed && After(a2).pending == [5] && After(a2).root == Receiving;
    assert After(a3).lost == [5] && After(a3).root == Receiving && After(a3).chan.closed;
  }

  // ---- What each step achieves ----

  lemma AfterThen(acts: seq<Action>, a: Action)
    ensures After(acts + [a]) == Step(After(acts), a)
  {
    assert (acts + [a])[..|acts|] == acts;
  }

  lemma StepCloses(s: Scope, a: Action)
    ensures Step(s, a).chan.closed <==> s.chan.closed || a == CloseScope
  {
    if a.SendOne? && a.i < |s.pending| {
      SendMovesOne(s, a.i);
    }
  }

  /** The scope is closed if and only if await() was called or the destructor has begun. */
  lemma {:induction false} ClosedExactlyWhen(acts: seq<Action>)
    ensures After(acts).chan.closed <==> CloseScope in acts
    decreases |acts|
  {
    if acts == [] {
    } else {
      var front, last := acts[..|acts| - 1], acts[|acts| - 1];
      assert acts == front + [last];
      ClosedExactlyWhen(front);
      StepCloses(After(front), last);
    }
  }

  /** add() promises all its awaitables if the scope is not closed, and nothing otherwise. */
  lemma AddAnswers(acts: seq<Action>, ids: seq<nat>)
    ensures var s, s' := After(acts), After(acts + [Add(ids)]);
            if CloseScope in acts then s' == s
            else s' == s.(pending := s.pending + ids, promised := s.promised + ids)
  {
    AfterThen(acts, Add(ids));
    ClosedExactlyWhen(acts);
  }

  // The pending awaitable number `i` is lost.
  predicate Lost(s: Scope, s': Scope, i: nat) {
    && i < |s.pending| && s'.pending == s.pending[..i] + s.pending[i + 1..] && s'.awaited == s.awaited
    && s'.lost == s.lost + [s.pending[i]] && s'.accepted == s.accepted && s'.root == s.root
  }

  // The pending awaitable number `i` is accepted, and a waiting root coroutine awaits it.
  predicate Joining(s: Scope, s': Scope, i: nat) {
    && i < |s.pending| && s'.pending == s.pending[..i] + s.pending[i + 1..] && s'.awaited == s.awaited
    && s'.accepted == s.accepted + [s.pending[i]] && s'.lost == s.lost
    && s'.root == if s.root.Waiting? then Awaiting(s.pending[i]) else s.root
  }

  /** A send of add() is accepted if the scope is still not closed, and a root coroutine that
      waits goes on with it at once; otherwise its awaitable is lost. */
  lemma SendAnswers(acts: seq<Action>, i: nat)
    requires i < |After(acts).pending|
    ensures var s, s' := After(acts), After(acts + [SendOne(i)]);
            if CloseScope in acts then Lost(s, s', i) else Joining(s, s', i)
  {
    AfterThen(acts, SendOne(i));
    ClosedExactlyWhen(acts);
    RunKeepsInv(acts);
    SendMovesOne(After(acts), i);
  }

  // A turn of the root coroutine, which is `idle` afterwards if it finds nothing to join.
  predicate RootMoved(s: Scope, s': Scope, idle: Root) {
    && s'.accepted == s.accepted && s'.pending == s.pending && s'.promised == s.promised && s'.lost == s.lost
    && if s.root.Awaiting? then s'.awaited == s.awaited + [s.root.id] && s'.root.Receiving?
       else if s.root.Receiving? then
         && s'.awaited == s.awaited
         && s'.root == if |s.awaited| < |s.accepted| then Awaiting(s.accepted[|s.awaited|]) else idle
       else s' == s
  }

  lemma RootMoves(s: Scope)
    requires Ordered(s)
    ensures RootMoved(s, Step(s, RootTurn), if s.chan.closed then Finished else Waiting)
  {
    if s.root.Receiving? {
      assert s.accepted == s.awaited + s.chan.queue;
    }
  }

  /** Each turn of the root coroutine joins what it awaits, or else goes on to the first accepted
      awaitable it has not joined; without one it ends if the scope is closed, and waits if not. */
  lemma RootAnswers(acts: seq<Action>)
    ensures var s, s' := After(acts), After(acts + [RootTurn]);
            RootMoved(s, s', if CloseScope in acts then Finished else Waiting)
  {
    AfterThen(acts, RootTurn);
    ClosedExactlyWhen(acts);
    RunKeepsInv(acts);
    RootMoves(After(acts));
  }

  /** Closing ends a root coroutine that waits, and keeps everything accepted. */
  lemma CloseAnswers(acts: seq<Action>)
    ensures var s, s' := After(acts), After(acts + [CloseScope]);
            && s'.awaited == s.awaited && s'.accepted == s.accepted && s'.chan.queue == s.chan.queue
            && s'.root == if s.root.Waiting? then Finished else s.root
  {
    AfterThen(acts, CloseScope);
    RunKeepsInv(acts);
    if After(acts).root.Waiting? {
      assert RefuseReceivers<nat>([0]) == [ReceiverWoken(0, None)];
    }
  }

  // The turns that a root coroutine has still to make when the scope is closed.
  function TurnsLeft(s: Scope): nat {
    2 * |s.chan.queue| + match s.root
                         case Receiving => 1
                         case Awaiting(_) => 2
                         case Waiting => 0
                         case Finished => 0
  }

  function Turns(acts: seq<Action>): nat {
    if acts == [] then 0 else Turns(acts[..|acts| - 1]) + if acts[|acts| - 1].RootTurn? then 1 else 0
  }

  lemma ClosedStep(s: Scope, a: Action)
    requires Ordered(s) && s.chan.closed
    ensures var s' := Step(s, a);
            TurnsLeft(s') == if a.RootTurn? && TurnsLeft(s) > 0 then TurnsLeft(s) - 1 else TurnsLeft(s)
    ensures s.root.Finished? <==> TurnsLeft(s) == 0
  {
  }

  lemma {:induction false} TurnsAreUsed(acts: seq<Action>, more: seq<Action>)
    requires CloseScope in acts
    ensures TurnsLeft(After(acts + more)) == if Turns(more) < TurnsLeft(After(acts)) then TurnsLeft(After(acts)) - Turns(more) else 0
    decreases |more|
  {
    if more == [] {
      assert acts + more == acts;
    } else {
      var front, last := more[..|more| - 1], more[|more| - 1];
      assert acts + more == (acts + front) + [last];
      TurnsAreUsed(acts, front);
      AfterThen(acts + front, last);
      RunKeepsInv(acts + front);
      ClosedExactlyWhen(acts + front);
      ClosedStep(After(acts + front), last);
    }
  }

  /** Once the scope is closed the root coroutine ends after a known number of its turns, whatever
      else happens meanwhile, and not before; then it has joined all that was accepted. */
  lemma RootFinishesExactlyWhen(acts: seq<Action>, more: seq<Action>)
    requires CloseScope in acts
    ensures After(acts + more).root.Finished? <==> Turns(more) >= TurnsLeft(After(acts))
    ensures After(acts + more).root.Finished? ==> After(acts + more).awaited == After(acts + more).accepted
  {
    TurnsAreUsed(acts, more);
    RunKeepsInv(acts + more);
    ClosedExactlyWhen(acts + more);
    ClosedStep(After(acts + more), RootTurn);
  }
}
