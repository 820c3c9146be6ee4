/** The blocking service's reuse of worker threads: workers in a caller's hands, workers kept
    in a ring of fixed capacity, and workers discarded because the ring was full. */
module Blocking {
  import opened RingBuffer

  // A worker thread, by the order in which it was started.
  type Worker = nat

  // Every worker started is in a caller's hands, kept, or discarded, and in one place only.
  ghost predicate Accounted(started: nat, active: set<Worker>, kept: seq<Worker>, discarded: set<Worker>) {
    && (forall i, j | 0 <= i < j < |kept| :: kept[i] != kept[j])
    && (forall i | 0 <= i < |kept| :: kept[i] < started && kept[i] !in active && kept[i] !in discarded)
    && (forall w | w in active :: w < started && w !in discarded)
    && (forall w | w in discarded :: w < started)
    && |active| + |kept| + |discarded| == started
  }

  lemma Starts(started: nat, active: set<Worker>, kept: seq<Worker>, discarded: set<Worker>)
    requires Accounted(started, active, kept, discarded)
    ensures Accounted(started + 1, active + {started}, kept, discarded)
    ensures |active + {started}| == |active| + 1
  {
  }

  lemma Reuses(started: nat, active: set<Worker>, kept: seq<Worker>, discarded: set<Worker>)
    requires Accounted(started, active, kept, discarded) && kept != []
    ensures kept[0] !in active && Accounted(started, active + {kept[0]}, kept[1..], discarded)
    ensures |active + {kept[0]}| == |active| + 1
  {
  }

  lemma Keeps(started: nat, active: set<Worker>, kept: seq<Worker>, discarded: set<Worker>, w: Worker)
    requires Accounted(started, active, kept, discarded) && w in active
    ensures Accounted(started, active - {w}, kept + [w], discarded)
  {
  }

  lemma Discards(started: nat, active: set<Worker>, kept: seq<Worker>, discarded: set<Worker>, w: Worker)
    requires Accounted(started, active, kept, discarded) && w in active
    ensures Accounted(started, active - {w}, kept, discarded + {w})
  {
  }

  class Service {
    var activeCount: nat
    var cache: CircularBuffer<Worker>
    ghost var started: nat
    ghost var active: set<Worker>
    ghost var discarded: set<Worker>

    ghost predicate Valid()
      reads this, cache, cache.buffer
    {
      cache.Valid() && activeCount == |active| && Accounted(started, active, cache.Contents(), discarded)
    }

    constructor (cacheSize: nat)
      ensures Valid() && fresh(cache) && fresh(cache.buffer) && cache.buffer.Length == cacheSize
      ensures started == 0
    {
      activeCount := 0;
      cache := new CircularBuffer<Worker>(cacheSize);
      started, active, discarded := 0, {}, {};
    }

    method TakeKept() returns (w: Worker)
      requires cache.Valid() && cache.used > 0
      modifies cache
      ensures cache.Valid() && cache.buffer == old(cache.buffer)
      ensures w == old(cache.Contents())[0] && cache.Contents() == old(cache.Contents())[1..]
    {
      w := cache.Front();
      cache.Pop();
    }

    /** The worker kept longest, or a new one (`startedNow`) if none is kept.  Nobody else
        holds it. */
    method Checkout(startedNow: Worker) returns (w: Worker)
      requires Valid() && startedNow == started
      modifies this`activeCount, this`started, this`active, cache
      ensures Valid() && w !in old(active) && active == old(active) + {w}
      ensures cache.buffer == old(cache.buffer)
      ensures if old(cache.used) > 0
              then w == old(cache.Contents())[0] && cache.Contents() == old(cache.Contents())[1..]
                && started == old(started)
              else cache.Contents() == old(cache.Contents()) && w == old(started) && started == w + 1
    {
      activeCount := activeCount + 1;
      if cache.used == 0 {
        Starts(started, active, cache.Contents(), discarded);
        w := startedNow;
        started := started + 1;
        active := active + {w};
      } else {
        Reuses(started, active, cache.Contents(), discarded);
        w := TakeKept();
        active := active + {w};
      }
    }

    /** The count reported is that of the workers started and not discarded. */
    method WorkerCount() returns (count: nat)
      requires Valid()
      ensures count == started - |discarded|
    {
      count := activeCount + cache.used;
    }

    /** A worker is kept for reuse while there is room, and discarded otherwise. */
    method Checkin(w: Worker)
      requires Valid() && w in active
      modifies this`activeCount, this`active, this`discarded, cache, cache.buffer
      ensures Valid() && active == old(active) - {w} && cache.buffer == old(cache.buffer)
      ensures if old(cache.used) < cache.buffer.Length
              then cache.Contents() == old(cache.Contents()) + [w] && discarded == old(discarded)
              else cache.Contents() == old(cache.Contents()) && discarded == old(discarded) + {w}
    {
      activeCount := activeCount - 1;
      if cache.used == cache.buffer.Length {
        Discards(started, active, cache.Contents(), discarded, w);
        discarded := discarded + {w};
      } else {
        Keeps(started, active, cache.Contents(), discarded, w);
        cache.Emplace(w);
      }
      active := active - {w};
    }
  }
}
