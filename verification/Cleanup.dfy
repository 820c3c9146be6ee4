/** The cleanup handlers of a coroutine's promise: a list built by install() and consumed by
    cleanup(), first in, last out.  A handler may itself install others while it is called,
    and not the same ones each time. */
module Cleanup {

  type Handler = nat

  // What a handler installs, in order, when it is called as number `t` of the whole cleanup.
  type Behaviour = (Handler, nat) -> seq<Handler>

  function Installed(list: seq<Handler>, handlers: seq<Handler>): seq<Handler>
    decreases |handlers|
  {
    if handlers == [] then list else Installed([handlers[0]] + list, handlers[1..])
  }

  function Reversed(s: seq<Handler>): (r: seq<Handler>)
    ensures |r| == |s|
  {
    if s == [] then [] else Reversed(s[1..]) + [s[0]]
  }

  lemma {:induction false} InstalledInFront(list: seq<Handler>, handlers: seq<Handler>)
    ensures Installed(list, handlers) == Reversed(handlers) + list
    decreases |handlers|
  {
    if handlers == [] {
    } else {
      InstalledInFront([handlers[0]] + list, handlers[1..]);
    }
  }

  // One round of the loop: the first handler is called, which may install others in front of
  // it, and then the first node is removed.
  function Round(list: seq<Handler>, b: Behaviour, t: nat): (rest: seq<Handler>)
    requires list != []
    ensures |rest| == |list| + |b(list[0], t)| - 1
  {
    InstalledInFront(list, b(list[0], t));
    Installed(list, b(list[0], t))[1..]
  }

  // What `n` rounds from call number `t` on leave, call, and install, if the list lasts.

  function Rest(list: seq<Handler>, b: Behaviour, t: nat, n: nat): seq<Handler>
    decreases n
  {
    if n == 0 || list == [] then list else Rest(Round(list, b, t), b, t + 1, n - 1)
  }

  function Called(list: seq<Handler>, b: Behaviour, t: nat, n: nat): seq<Handler>
    decreases n
  {
    if n == 0 || list == [] then [] else [list[0]] + Called(Round(list, b, t), b, t + 1, n - 1)
  }

  function InstallCount(list: seq<Handler>, b: Behaviour, t: nat, n: nat): nat
    decreases n
  {
    if n == 0 || list == [] then 0 else |b(list[0], t)| + InstallCount(Round(list, b, t), b, t + 1, n - 1)
  }

  lemma {:induction false} ReversedDropsLast(s: seq<Handler>)
    requires s != []
    ensures Reversed(s)[1..] == Reversed(s[..|s| - 1])
  {
    if |s| == 1 {
    } else {
      ReversedDropsLast(s[1..]);
      assert s[1..][..|s| - 2] == s[..|s| - 1][1..];
    }
  }

  /** A handler that installs nothing is removed.  Otherwise the handler it installed last is
      removed, uncalled, and it stays behind the others it installed. */
  lemma LastInstalledIsLost(list: seq<Handler>, b: Behaviour, t: nat)
    requires list != []
    ensures var added := b(list[0], t);
            Round(list, b, t) == if added == [] then list[1..] else Reversed(added[..|added| - 1]) + list
  {
    var added := b(list[0], t);
    InstalledInFront(list, added);
    if added == [] {
    } else {
      ReversedDropsLast(added);
      assert (Reversed(added) + list)[1..] == Reversed(added)[1..] + list;
    }
  }

  /** Each round removes one node: calls and what is left are the handlers there ever were. */
  lemma {:induction false} RoundsBalance(list: seq<Handler>, b: Behaviour, t: nat, n: nat)
    ensures |Rest(list, b, t, n)| + |Called(list, b, t, n)| == |list| + InstallCount(list, b, t, n)
    ensures |Called(list, b, t, n)| <= n
    ensures Rest(list, b, t, n) != [] ==> |Called(list, b, t, n)| == n
    decreases n
  {
    if n == 0 || list == [] {
    } else {
      RoundsBalance(Round(list, b, t), b, t + 1, n - 1);
    }
  }

  predicate Finishes(list: seq<Handler>, b: Behaviour, n: nat) {
    Rest(list, b, 0, n) == []
  }

  ghost predicate Ends(list: seq<Handler>, b: Behaviour) {
    exists n: nat :: Finishes(list, b, n)
  }

  // No more handlers are listed at first and by the first `n` calls than there are calls.
  predicate CatchesUp(list: seq<Handler>, b: Behaviour, n: nat) {
    |list| + InstallCount(list, b, 0, n) <= n
  }

  lemma FinishesWhen(list: seq<Handler>, b: Behaviour, n: nat)
    ensures Finishes(list, b, n) <==> CatchesUp(list, b, n)
  {
    RoundsBalance(list, b, 0, n);
  }

  /** Cleanup comes to an end exactly when the calls catch up with the handlers listed. */
  lemma EndsExactlyWhen(list: seq<Handler>, b: Behaviour)
    ensures Ends(list, b) <==> exists n: nat :: CatchesUp(list, b, n)
  {
    if n: nat :| Finishes(list, b, n) {
      FinishesWhen(list, b, n);
    }
    if n: nat :| CatchesUp(list, b, n) {
      FinishesWhen(list, b, n);
    }
  }

  lemma {:induction false} QuietlyConsumed(list: seq<Handler>, b: Behaviour, t: nat)
    requires forall h, u: nat | u >= t :: b(h, u) == []
    ensures Rest(list, b, t, |list|) == [] && Called(list, b, t, |list|) == list
    decreases |list|
  {
    if list == [] {
    } else {
      LastInstalledIsLost(list, b, t);
      QuietlyConsumed(list[1..], b, t + 1);
    }
  }

  lemma {:induction false} RestInTwo(list: seq<Handler>, b: Behaviour, t: nat, m: nat, n: nat)
    ensures Rest(list, b, t, m + n) == Rest(Rest(list, b, t, m), b, t + m, n)
    decreases m
  {
    if m == 0 || list == [] {
    } else {
      RestInTwo(Round(list, b, t), b, t + 1, m - 1, n);
    }
  }

  /** It ends whenever there is a call from which on no handler installs anything. */
  lemma EndsOnceInstallingStops(list: seq<Handler>, b: Behaviour, k: nat)
    requires forall h, u: nat | u >= k :: b(h, u) == []
    ensures Ends(list, b)
  {
    var rest := Rest(list, b, 0, k);
    QuietlyConsumed(rest, b, k);
    RestInTwo(list, b, 0, k, |rest|);
    assert Finishes(list, b, k + |rest|);
  }

  /** A listed handler that installs at every call stays listed for ever. */
  lemma {:induction false} InstallerStays(list: seq<Handler>, b: Behaviour, t: nat, h: Handler, n: nat)
    requires h in list && forall u: nat :: b(h, u) != []
    ensures h in Rest(list, b, t, n)
    decreases n
  {
    if n == 0 {
    } else {
      LastInstalledIsLost(list, b, t);
      InstallerStays(Round(list, b, t), b, t + 1, h, n - 1);
    }
  }

  lemma InstallerNeverEnds(list: seq<Handler>, b: Behaviour, h: Handler)
    requires h in list && forall u: nat :: b(h, u) != []
    ensures !Ends(list, b)
  {
    forall n: nat ensures !Finishes(list, b, n) { InstallerStays(list, b, 0, h, n); }
  }

  // Call number k is the handler at place k, and installs nothing.
  ghost predicate NoneInstalls(list: seq<Handler>, b: Behaviour, t: nat) {
    forall k | 0 <= k < |list| :: b(list[k], t + k) == []
  }

  lemma NoneInstallsSplit(list: seq<Handler>, b: Behaviour, t: nat)
    requires list != []
    ensures NoneInstalls(list, b, t) <==> b(list[0], t) == [] && NoneInstalls(list[1..], b, t + 1)
  {
    var rest := list[1..];
    if NoneInstalls(list, b, t) {
      assert b(list[0], t + 0) == [];
      forall k | 0 <= k < |rest| ensures b(rest[k], t + 1 + k) == [] {
        assert b(list[k + 1], t + (k + 1)) == [];
      }
    }
    if b(list[0], t) == [] && NoneInstalls(rest, b, t + 1) {
      forall k | 0 <= k < |list| ensures b(list[k], t + k) == [] {
        assert k > 0 ==> b(rest[k - 1], t + 1 + (k - 1)) == [];
      }
    }
  }

  lemma {:induction false} NoInstallsCounted(list: seq<Handler>, b: Behaviour, t: nat)
    ensures InstallCount(list, b, t, |list|) == 0 <==> NoneInstalls(list, b, t)
    decreases |list|
  {
    if list == [] {
    } else {
      LastInstalledIsLost(list, b, t);
      NoneInstallsSplit(list, b, t);
      if b(list[0], t) == [] {
        NoInstallsCounted(list[1..], b, t + 1);
      }
    }
  }

  lemma {:induction false} OnceEachWhen(list: seq<Handler>, b: Behaviour, t: nat)
    requires NoneInstalls(list, b, t)
    ensures Rest(list, b, t, |list|) == [] && Called(list, b, t, |list|) == list
    decreases |list|
  {
    if list == [] {
    } else {
      LastInstalledIsLost(list, b, t);
      NoneInstallsSplit(list, b, t);
      OnceEachWhen(list[1..], b, t + 1);
    }
  }

  /** Every handler is called exactly once, last installed first, exactly when no call of them
      installs another. */
  lemma OnceEachExactlyWhen(list: seq<Handler>, b: Behaviour)
    ensures Rest(list, b, 0, |list|) == [] && Called(list, b, 0, |list|) == list <==> NoneInstalls(list, b, 0)
  {
    NoInstallsCounted(list, b, 0);
    if NoneInstalls(list, b, 0) { OnceEachWhen(list, b, 0); }
    RoundsBalance(list, b, 0, |list|);
  }

  /** A handler that installs another at its first call only is called twice, and the other
      one never. */
  lemma InstallsOnce(h: Handler, x: Handler)
    ensures var b: Behaviour := (g: Handler, t: nat) => if t == 0 then [x] else [];
            Called([h], b, 0, 2) == [h, h] && Rest([h], b, 0, 2) == []
  {
    var b: Behaviour := (g: Handler, t: nat) => if t == 0 then [x] else [];
    LastInstalledIsLost([h], b, 0);
    assert Round([h], b, 0) == [h];
    LastInstalledIsLost([h], b, 1);
    assert Rest([h], b, 1, 1) == [] && Called([h], b, 1, 1) == [h];
  }

  class Promise {
    var cleanupList: seq<Handler>

    constructor ()
      ensures cleanupList == []
    {
      cleanupList := [];
    }

    method Install(handler: Handler)
      modifies this
      ensures cleanupList == [handler] + old(cleanupList)
    {
      cleanupList := [handler] + cleanupList;
    }

    // What a handler installs while it is called.
    method InstallAll(handlers: seq<Handler>)
      modifies this
      ensures cleanupList == Installed(old(cleanupList), handlers)
    {
      var i := 0;
      while i < |handlers|
        invariant i <= |handlers| && Installed(cleanupList, handlers[i..]) == Installed(old(cleanupList), handlers)
      {
        Install(handlers[i]);
        i := i + 1;
      }
    }

    /** The loop, which makes `n` rounds or fewer: it calls what the rounds call. */
    method RunCleanup(b: Behaviour, ghost n: nat) returns (called: seq<Handler>)
      requires Rest(cleanupList, b, 0, n) == []
      modifies this
      ensures cleanupList == [] && called == Called(old(cleanupList), b, 0, n)
    {
      called := [];
      var t := 0;
      while cleanupList != []
        invariant t <= n && Rest(cleanupList, b, t, n - t) == []
        invariant called + Called(cleanupList, b, t, n - t) == Called(old(cleanupList), b, 0, n)
        decreases n - t
      {
        var first := cleanupList[0];
        ghost var before := cleanupList;
        called := called + [first];
        InstallAll(b(first, t));
        InstalledInFront(before, b(first, t));
        cleanupList := cleanupList[1..];
        assert cleanupList == Round(before, b, t);
        t := t + 1;
      }
    }
  }
}
