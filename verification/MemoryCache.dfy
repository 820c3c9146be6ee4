/** Thread caches of memory blocks.  A block carries a header with the index of its bucket,
    so it may be given back to another cache than the one it came from.  A system is any
    number of caches with the same block sizes, their limits being their own. */
module MemoryCache {
  import opened SizeClass

  type Address = nat

  // A block got from the system allocator: the index in its header, and what it can hold.
  datatype Header = Header(index: nat, capacity: nat)

  type Headers = map<Address, Header>

  datatype Bucket = Bucket(index: nat, block: nat, limit: nat, freeCount: nat, freeList: seq<Address>)

  datatype Reply = Block(address: Address) | BadAlloc | BadDealloc | Done

  datatype Pointer = Null | To(address: Address)

  datatype Cache = Cache(buckets: seq<Bucket>, headers: Headers)

  // One call on a cache.  `storage` is what the system allocator would answer.
  datatype Call = Allocate(size: Size, storage: Address) | Deallocate(address: Address) | DeallocateNull | Clear

  function NewBuckets(table: seq<BucketInfo>): seq<Bucket> {
    seq(|table|, i requires 0 <= i < |table| => Bucket(i, table[i].block, table[i].limit, 0, []))
  }

  function Put(c: Cache, i: nat, b: Bucket): Cache
    requires i < |c.buckets|
  {
    c.(buckets := c.buckets[i := b])
  }

  function AllocateFrom(c: Cache, index: nat, storage: Address): (Cache, Address)
    requires index < |c.buckets|
  {
    var b := c.buckets[index];
    if b.freeList == [] then (c.(headers := c.headers[storage := Header(b.index, b.block)]), storage)
    else
      var last := |b.freeList| - 1;
      (Put(c, index, b.(freeCount := Less(b.freeCount), freeList := b.freeList[..last])), b.freeList[last])
  }

  function AllocateBlock(c: Cache, size: Size, storage: Address): (Cache, Reply) {
    if size == 0 then (c, BadAlloc)
    else
      var index := Indexer(size);
      if index < |c.buckets| then
        var (after, address) := AllocateFrom(c, index, storage);
        (after, Block(address))
      else
        (c.(headers := c.headers[storage := Header(index, size)]), Block(storage))
  }

  // The counter is an unsigned word.
  function Less(count: nat): nat {
    if count == 0 then WORD - 1 else count - 1
  }

  function DeallocateBlock(c: Cache, address: Address): (Cache, Reply)
    requires address in c.headers
  {
    var index := c.headers[address].index;
    if index >= |c.buckets| then (c.(headers := c.headers - {address}), Done)
    else
      var b := c.buckets[index];
      if b.freeCount >= b.limit then (c.(headers := c.headers - {address}), Done)
      else (Put(c, index, b.(freeCount := b.freeCount + 1, freeList := b.freeList + [address])), Done)
  }

  function Emptied(buckets: seq<Bucket>): seq<Bucket> {
    seq(|buckets|, i requires 0 <= i < |buckets| => buckets[i].(freeCount := 0, freeList := []))
  }

  function Cached(buckets: seq<Bucket>): set<Address> {
    set i, k | 0 <= i < |buckets| && 0 <= k < |buckets[i].freeList| :: buckets[i].freeList[k]
  }

  function ClearAll(c: Cache): Cache {
    Cache(Emptied(c.buckets), c.headers - Cached(c.buckets))
  }

  function Act(c: Cache, call: Call): (Cache, Reply)
    requires call.Deallocate? ==> call.address in c.headers
  {
    match call
    case Allocate(size, storage) => AllocateBlock(c, size, storage)
    case Deallocate(address) => DeallocateBlock(c, address)
    case DeallocateNull => (c, BadDealloc)
    case Clear => (ClearAll(c), Done)
  }

  /** `live` maps each block in a caller's hands to the size asked for. */
  datatype System = System(caches: seq<seq<Bucket>>, headers: Headers, live: map<Address, nat>)

  function Initial(count: nat, byteLimits: seq<nat>): System {
    System(seq(|byteLimits|, c requires 0 <= c < |byteLimits| => NewBuckets(Table(count, byteLimits[c]))),
           map[], map[])
  }

  // The system allocator never hands out storage that is in use, and callers give back only
  // blocks that they hold.
  predicate Enabled(s: System, c: nat, call: Call) {
    && c < |s.caches|
    && match call
       case Allocate(_, storage) => storage !in s.headers
       case Deallocate(address) => address in s.live && address in s.headers
       case DeallocateNull => true
       case Clear => true
  }

  function Live(s: System, call: Call, reply: Reply): map<Address, nat> {
    match (call, reply)
    case (Allocate(size, _), Block(address)) => s.live[address := size]
    case (Deallocate(address), _) => s.live - {address}
    case (_, _) => s.live
  }

  function Step(s: System, c: nat, call: Call): (System, Reply)
    requires Enabled(s, c, call)
  {
    var (after, reply) := Act(Cache(s.caches[c], s.headers), call);
    (System(s.caches[c := after.buckets], after.headers, Live(s, call, reply)), reply)
  }

  // Where a block is: how often it stands in free lists, and whether a caller holds it.

  function Count(list: seq<Address>, a: Address): nat {
    if list == [] then 0 else Count(list[..|list| - 1], a) + if list[|list| - 1] == a then 1 else 0
  }

  function CountBuckets(buckets: seq<Bucket>, a: Address): nat {
    if buckets == [] then 0 else CountBuckets(buckets[1..], a) + Count(buckets[0].freeList, a)
  }

  function CountCaches(caches: seq<seq<Bucket>>, a: Address): nat {
    if caches == [] then 0 else CountCaches(caches[1..], a) + CountBuckets(caches[0], a)
  }

  function Places(s: System, a: Address): nat {
    CountCaches(s.caches, a) + if a in s.live then 1 else 0
  }

  lemma {:induction false} CountPositive(list: seq<Address>, a: Address)
    ensures Count(list, a) > 0 <==> a in list
  {
    if list == [] {
    } else {
      var front := list[..|list| - 1];
      CountPositive(front, a);
      assert list == front + [list[|list| - 1]];
    }
  }

  lemma {:induction false} CountUpdate(buckets: seq<Bucket>, i: nat, b: Bucket, a: Address)
    requires i < |buckets|
    ensures CountBuckets(buckets[i := b], a) + Count(buckets[i].freeList, a)
         == CountBuckets(buckets, a) + Count(b.freeList, a)
  {
    if i == 0 {
      assert buckets[i := b][1..] == buckets[1..];
    } else {
      assert buckets[i := b][1..] == buckets[1..][i - 1 := b];
      CountUpdate(buckets[1..], i - 1, b, a);
    }
  }

  lemma {:induction false} CountCachesUpdate(caches: seq<seq<Bucket>>, c: nat, buckets: seq<Bucket>, a: Address)
    requires c < |caches|
    ensures CountCaches(caches[c := buckets], a) + CountBuckets(caches[c], a)
         == CountCaches(caches, a) + CountBuckets(buckets, a)
  {
    if c == 0 {
      assert caches[c := buckets][1..] == caches[1..];
    } else {
      assert caches[c := buckets][1..] == caches[1..][c - 1 := buckets];
      CountCachesUpdate(caches[1..], c - 1, buckets, a);
    }
  }

  lemma {:induction false} CountBucketsPositive(buckets: seq<Bucket>, a: Address)
    ensures CountBuckets(buckets, a) > 0 <==> a in Cached(buckets)
  {
    if buckets == [] {
    } else {
      CountPositive(buckets[0].freeList, a);
      CountBucketsPositive(buckets[1..], a);
      if a in Cached(buckets) {
        var i, k :| 0 <= i < |buckets| && 0 <= k < |buckets[i].freeList| && buckets[i].freeList[k] == a;
        if i > 0 {
          assert buckets[1..][i - 1] == buckets[i];
        }
      }
    }
  }

  lemma {:induction false} CountEmptied(buckets: seq<Bucket>, a: Address)
    ensures CountBuckets(Emptied(buckets), a) == 0
  {
    if buckets == [] {
    } else {
      assert Emptied(buckets)[1..] == Emptied(buckets[1..]);
      CountEmptied(buckets[1..], a);
    }
  }

  // The invariant.

  // A bucket has its place in the table, an exact counter within its limit, and blocks of
  // its own size and index.
  ghost predicate BucketOk(b: Bucket, i: nat, headers: Headers) {
    && b.index == i && b.block == Pow2(i)
    && b.freeCount == |b.freeList| <= b.limit
    && forall k | 0 <= k < |b.freeList| ::
         b.freeList[k] in headers && headers[b.freeList[k]] == Header(i, Pow2(i))
  }

  ghost predicate BucketsOk(buckets: seq<Bucket>, count: nat, headers: Headers) {
    |buckets| == count && forall i | 0 <= i < count :: BucketOk(buckets[i], i, headers)
  }

  // A block in a caller's hands is large enough, and its header says where it belongs.
  ghost predicate LiveOk(h: Header, size: nat, count: nat) {
    && 1 <= size < WORD && h.index == Indexer(size) && size <= h.capacity
    && (h.index < count ==> h.capacity == Pow2(h.index))
  }

  ghost predicate Inv(s: System, count: nat) {
    && (forall c | 0 <= c < |s.caches| :: BucketsOk(s.caches[c], count, s.headers))
    && (forall a | a in s.live :: a in s.headers && LiveOk(s.headers[a], s.live[a], count))
    && Conserved(s)
  }

  // Every block obtained and not yet returned to the system is in exactly one place.
  ghost predicate Conserved(s: System) {
    forall a: Address :: Places(s, a) == if a in s.headers then 1 else 0
  }

  function One(b: bool): nat { if b then 1 else 0 }

  lemma {:induction false} CountCachesAtLeast(caches: seq<seq<Bucket>>, c: nat, a: Address)
    requires c < |caches|
    ensures CountCaches(caches, a) >= CountBuckets(caches[c], a)
  {
    if c == 0 {
    } else {
      CountCachesAtLeast(caches[1..], c - 1, a);
    }
  }

  lemma {:induction false} CountTwoCaches(caches: seq<seq<Bucket>>, c: nat, d: nat, a: Address)
    requires c < d < |caches|
    ensures CountCaches(caches, a) >= CountBuckets(caches[c], a) + CountBuckets(caches[d], a)
  {
    if c > 0 {
      CountTwoCaches(caches[1..], c - 1, d - 1, a);
    } else {
      CountCachesAtLeast(caches[1..], d - 1, a);
    }
  }

  // A block in one cache is in no other cache and in no caller's hands.
  lemma CachedElsewhere(s: System, c: nat, d: nat, a: Address)
    requires Conserved(s) && c < |s.caches| && d < |s.caches| && a in Cached(s.caches[c])
    ensures a !in s.live && CountBuckets(s.caches[c], a) == 1
    ensures d != c ==> a !in Cached(s.caches[d])
  {
    assert Places(s, a) <= 1;
    CountBucketsPositive(s.caches[c], a);
    CountBucketsPositive(s.caches[d], a);
    CountCachesAtLeast(s.caches, c, a);
    if c < d {
      CountTwoCaches(s.caches, c, d, a);
    } else if d < c {
      CountTwoCaches(s.caches, d, c, a);
    }
  }

  // The effect of one call on the cache it is made on.

  // What the caller of `call` owes, and what is known about a cache of a sound system.
  ghost predicate Sound(c: Cache, call: Call, count: nat, live: map<Address, nat>) {
    && BucketsOk(c.buckets, count, c.headers)
    && (forall a | a in Cached(c.buckets) :: a !in live && CountBuckets(c.buckets, a) == 1)
    && match call
       case Allocate(_, storage) => storage !in c.headers && storage !in live
       case Deallocate(address) =>
         address in live && address in c.headers && LiveOk(c.headers[address], live[address], count)
       case DeallocateNull => true
       case Clear => true
  }

  lemma AllocateKeepsBuckets(c: Cache, call: Call, count: nat, live: map<Address, nat>)
    requires Sound(c, call, count, live) && call.Allocate?
    ensures BucketsOk(Act(c, call).0.buckets, count, Act(c, call).0.headers)
  {
    var Allocate(size, storage) := call;
    var index := Indexer(size);
    if 1 <= size && index < count && c.buckets[index].freeList != [] {
      var b := c.buckets[index];
      assert BucketOk(b, index, c.headers);
      assert BucketOk(Act(c, call).0.buckets[index], index, c.headers);
    }
  }

  lemma DeallocateKeepsBuckets(c: Cache, call: Call, count: nat, live: map<Address, nat>)
    requires Sound(c, call, count, live) && call.Deallocate?
    ensures BucketsOk(Act(c, call).0.buckets, count, Act(c, call).0.headers)
  {
    var address := call.address;
    var after := Act(c, call).0;
    forall i | 0 <= i < count
      ensures BucketOk(after.buckets[i], i, after.headers)
    {
      assert BucketOk(c.buckets[i], i, c.headers);
      assert forall k | 0 <= k < |c.buckets[i].freeList| :: c.buckets[i].freeList[k] in Cached(c.buckets);
    }
  }

  lemma ClearKeepsBuckets(c: Cache, count: nat)
    requires BucketsOk(c.buckets, count, c.headers)
    ensures BucketsOk(ClearAll(c).buckets, count, ClearAll(c).headers)
  {
    assert forall i | 0 <= i < count :: BucketOk(c.buckets[i], i, c.headers);
  }

  lemma CountDropLast(list: seq<Address>, a: Address)
    requires list != []
    ensures Count(list, a) == Count(list[..|list| - 1], a) + One(list[|list| - 1] == a)
  {
  }

  lemma CountAppend(list: seq<Address>, x: Address, a: Address)
    ensures Count(list + [x], a) == Count(list, a) + One(x == a)
  {
    assert (list + [x])[..|list|] == list;
  }

  // What a call adds to the places of a block it adds to the blocks in use.
  ghost predicate Balanced(c: Cache, after: Cache, live: map<Address, nat>, live': map<Address, nat>, a: Address) {
    CountBuckets(after.buckets, a) + One(a in live') + One(a in c.headers)
      == CountBuckets(c.buckets, a) + One(a in live) + One(a in after.headers)
  }

  function LiveAfter(live: map<Address, nat>, call: Call, reply: Reply): map<Address, nat> {
    Live(System([], map[], live), call, reply)
  }

  lemma ReuseBalances(c: Cache, size: Size, storage: Address, live: map<Address, nat>, a: Address)
    requires 1 <= size && Indexer(size) < |c.buckets| && c.buckets[Indexer(size)].freeList != []
    requires forall a | a in Cached(c.buckets) :: a !in live
    ensures Balanced(c, AllocateBlock(c, size, storage).0, live,
                     LiveAfter(live, Allocate(size, storage), AllocateBlock(c, size, storage).1), a)
  {
    var b := c.buckets[Indexer(size)];
    CountDropLast(b.freeList, a);
    CountUpdate(c.buckets, Indexer(size), AllocateBlock(c, size, storage).0.buckets[Indexer(size)], a);
    assert b.freeList[|b.freeList| - 1] in Cached(c.buckets);
  }

  lemma AllocateBalances(c: Cache, call: Call, count: nat, live: map<Address, nat>, a: Address)
    requires Sound(c, call, count, live) && call.Allocate?
    ensures Balanced(c, Act(c, call).0, live, LiveAfter(live, call, Act(c, call).1), a)
  {
    var Allocate(size, storage) := call;
    if 1 <= size && Indexer(size) < count && c.buckets[Indexer(size)].freeList != [] {
      ReuseBalances(c, size, storage, live, a);
    }
  }

  lemma DeallocateBalances(c: Cache, call: Call, count: nat, live: map<Address, nat>, a: Address)
    requires Sound(c, call, count, live) && call.Deallocate?
    ensures Balanced(c, Act(c, call).0, live, LiveAfter(live, call, Act(c, call).1), a)
  {
    var index := c.headers[call.address].index;
    if index < count {
      CountAppend(c.buckets[index].freeList, call.address, a);
      CountUpdate(c.buckets, index, Act(c, call).0.buckets[index], a);
    }
  }

  lemma ClearBalances(c: Cache, call: Call, count: nat, live: map<Address, nat>, a: Address)
    requires Sound(c, call, count, live) && call.Clear?
    ensures Balanced(c, Act(c, call).0, live, LiveAfter(live, call, Act(c, call).1), a)
  {
    CountEmptied(c.buckets, a);
    CountBucketsPositive(c.buckets, a);
    if a in Cached(c.buckets) {
      var i, k :| 0 <= i < |c.buckets| && 0 <= k < |c.buckets[i].freeList| && c.buckets[i].freeList[k] == a;
      assert BucketOk(c.buckets[i], i, c.headers);
    }
  }

  lemma CallIsSound(s: System, c: nat, call: Call, count: nat)
    requires Inv(s, count) && Enabled(s, c, call)
    ensures Sound(Cache(s.caches[c], s.headers), call, count, s.live)
  {
    forall a | a in Cached(s.caches[c])
      ensures a !in s.live && CountBuckets(s.caches[c], a) == 1
    {
      CachedElsewhere(s, c, c, a);
    }
  }

  lemma CallKeepsBuckets(s: System, c: nat, call: Call, count: nat)
    requires Inv(s, count) && Enabled(s, c, call)
    ensures BucketsOk(Step(s, c, call).0.caches[c], count, Step(s, c, call).0.headers)
  {
    CallIsSound(s, c, call, count);
    var cache := Cache(s.caches[c], s.headers);
    match call
    case Allocate(_, _) => AllocateKeepsBuckets(cache, call, count, s.live);
    case Deallocate(_) => DeallocateKeepsBuckets(cache, call, count, s.live);
    case DeallocateNull =>
    case Clear => ClearKeepsBuckets(cache, count);
  }

  // A header changes only when its block is returned to the system or obtained from it.
  lemma HeadersKept(c: Cache, call: Call, a: Address)
    requires a in c.headers
    requires match call
             case Allocate(_, storage) => storage !in c.headers
             case Deallocate(address) => address in c.headers && a != address
             case DeallocateNull => true
             case Clear => a !in Cached(c.buckets)
    ensures a in Act(c, call).0.headers && Act(c, call).0.headers[a] == c.headers[a]
  {
  }

  lemma OthersKeepBuckets(s: System, c: nat, call: Call, count: nat, d: nat)
    requires Inv(s, count) && Enabled(s, c, call) && d < |s.caches| && d != c
    ensures BucketsOk(s.caches[d], count, Step(s, c, call).0.headers)
  {
    forall i | 0 <= i < count
      ensures BucketOk(s.caches[d][i], i, Step(s, c, call).0.headers)
    {
      var b := s.caches[d][i];
      assert BucketOk(b, i, s.headers);
      forall k | 0 <= k < |b.freeList|
        ensures b.freeList[k] in Step(s, c, call).0.headers
             && Step(s, c, call).0.headers[b.freeList[k]] == s.headers[b.freeList[k]]
      {
        assert b.freeList[k] in Cached(s.caches[d]);
        CachedElsewhere(s, d, c, b.freeList[k]);
        HeadersKept(Cache(s.caches[c], s.headers), call, b.freeList[k]);
      }
    }
  }

  lemma AllocatedIsLargeEnough(s: System, c: nat, call: Call, count: nat)
    requires Inv(s, count) && Enabled(s, c, call) && call.Allocate? && call.size >= 1
    ensures Step(s, c, call).1.Block?
    ensures var block := Step(s, c, call).1.address; var headers := Step(s, c, call).0.headers;
      block in headers && LiveOk(headers[block], call.size, count)
  {
    var index := Indexer(call.size);
    IndexerIsLeast(call.size, index);
    if index < count {
      var b := s.caches[c][index];
      assert BucketOk(b, index, s.headers);
    }
  }

  lemma CallKeepsLive(s: System, c: nat, call: Call, count: nat, a: Address)
    requires Inv(s, count) && Enabled(s, c, call) && a in Step(s, c, call).0.live
    ensures a in Step(s, c, call).0.headers
    ensures LiveOk(Step(s, c, call).0.headers[a], Step(s, c, call).0.live[a], count)
  {
    if call.Allocate? && call.size >= 1 {
      AllocatedIsLargeEnough(s, c, call, count);
    }
    if !(call.Allocate? && Step(s, c, call).1 == Block(a)) {
      assert a in s.live && Step(s, c, call).0.live[a] == s.live[a];
      if call.Clear? && a in Cached(s.caches[c]) {
        CachedElsewhere(s, c, c, a);
      }
      HeadersKept(Cache(s.caches[c], s.headers), call, a);
    }
  }

  lemma CallConserves(s: System, c: nat, call: Call, count: nat, a: Address)
    requires Inv(s, count) && Enabled(s, c, call)
    ensures Places(Step(s, c, call).0, a) == One(a in Step(s, c, call).0.headers)
  {
    CallIsSound(s, c, call, count);
    var cache := Cache(s.caches[c], s.headers);
    var (after, reply) := Act(cache, call);
    match call {
      case Allocate(_, _) => AllocateBalances(cache, call, count, s.live, a);
      case Deallocate(_) => DeallocateBalances(cache, call, count, s.live, a);
      case DeallocateNull =>
      case Clear => ClearBalances(cache, call, count, s.live, a);
    }
    assert Balanced(cache, after, s.live, LiveAfter(s.live, call, reply), a);
    CountCachesUpdate(s.caches, c, after.buckets, a);
    assert Places(s, a) == One(a in s.headers);
  }

  lemma StepKeepsInv(s: System, c: nat, call: Call, count: nat)
    requires Inv(s, count) && Enabled(s, c, call)
    ensures Inv(Step(s, c, call).0, count)
  {
    var after := Step(s, c, call).0;
    forall d | 0 <= d < |after.caches|
      ensures BucketsOk(after.caches[d], count, after.headers)
    {
      if d == c {
        CallKeepsBuckets(s, c, call, count);
      } else {
        OthersKeepBuckets(s, c, call, count, d);
      }
    }
    forall a | a in after.live
      ensures a in after.headers && LiveOk(after.headers[a], after.live[a], count)
    {
      CallKeepsLive(s, c, call, count, a);
    }
    forall a: Address
      ensures Places(after, a) == One(a in after.headers)
    {
      CallConserves(s, c, call, count, a);
    }
  }

  // Runs.

  predicate Runnable(s: System, calls: seq<(nat, Call)>)
    decreases |calls|
  {
    calls == []
    || (Enabled(s, calls[0].0, calls[0].1) && Runnable(Step(s, calls[0].0, calls[0].1).0, calls[1..]))
  }

  function After(s: System, calls: seq<(nat, Call)>): System
    requires Runnable(s, calls)
    decreases |calls|
  {
    if calls == [] then s else After(Step(s, calls[0].0, calls[0].1).0, calls[1..])
  }

  lemma {:induction false} EmptyTables(caches: seq<seq<Bucket>>, a: Address)
    requires forall c | 0 <= c < |caches| :: CountBuckets(caches[c], a) == 0
    ensures CountCaches(caches, a) == 0
  {
    if caches == [] {
    } else {
      EmptyTables(caches[1..], a);
    }
  }

  lemma InitialInv(count: nat, byteLimits: seq<nat>)
    ensures Inv(Initial(count, byteLimits), count)
  {
    var s := Initial(count, byteLimits);
    forall c | 0 <= c < |s.caches|
      ensures BucketsOk(s.caches[c], count, s.headers)
    {
    }
    forall a: Address
      ensures Places(s, a) == 0
    {
      forall c | 0 <= c < |s.caches|
        ensures CountBuckets(s.caches[c], a) == 0
      {
        assert Emptied(s.caches[c]) == s.caches[c];
        CountEmptied(s.caches[c], a);
      }
      EmptyTables(s.caches, a);
    }
  }

  lemma {:induction false} RunKeepsInv(s: System, calls: seq<(nat, Call)>, count: nat)
    requires Inv(s, count) && Runnable(s, calls)
    ensures Inv(After(s, calls), count)
    decreases |calls|
  {
    if calls == [] {
    } else {
      StepKeepsInv(s, calls[0].0, calls[0].1, count);
      RunKeepsInv(Step(s, calls[0].0, calls[0].1).0, calls[1..], count);
    }
  }

  /** After any run, allocation of a positive size in any cache yields a block that can hold
      it, that no caller held, and that is in no cache afterwards. */
  lemma AllocationIsSafe(count: nat, byteLimits: seq<nat>, calls: seq<(nat, Call)>,
                         c: nat, size: Size, storage: Address)
    requires Runnable(Initial(count, byteLimits), calls) && size >= 1
    requires Enabled(After(Initial(count, byteLimits), calls), c, Allocate(size, storage))
    ensures var s := After(Initial(count, byteLimits), calls);
      var (after, reply) := Step(s, c, Allocate(size, storage));
      && reply.Block? && reply.address !in s.live && after.live == s.live[reply.address := size]
      && reply.address in after.headers && after.headers[reply.address].capacity >= size
      && CountCaches(after.caches, reply.address) == 0
  {
    InitialInv(count, byteLimits);
    RunKeepsInv(Initial(count, byteLimits), calls, count);
    var s := After(Initial(count, byteLimits), calls);
    var call := Allocate(size, storage);
    AllocatedIsLargeEnough(s, c, call, count);
    var (after, reply) := Step(s, c, call);
    CallConserves(s, c, call, count, reply.address);
    CallIsSound(s, c, call, count);
    var index := Indexer(size);
    if index < count && s.caches[c][index].freeList != [] {
      assert reply.address in Cached(s.caches[c]);
    }
  }

  /** After any run, a block got from the system and not yet returned to it is either held
      by one caller or stands once in one free list, never both, and never twice. */
  lemma BlocksAreConserved(count: nat, byteLimits: seq<nat>, calls: seq<(nat, Call)>, a: Address)
    requires Runnable(Initial(count, byteLimits), calls)
    ensures var s := After(Initial(count, byteLimits), calls);
      Places(s, a) == One(a in s.headers)
  {
    InitialInv(count, byteLimits);
    RunKeepsInv(Initial(count, byteLimits), calls, count);
    assert Conserved(After(Initial(count, byteLimits), calls));
  }

  /** After any run, each bucket's counter is the length of its free list and within its
      limit, so the counter never wraps. */
  lemma CountersAreExact(count: nat, byteLimits: seq<nat>, calls: seq<(nat, Call)>, c: nat, i: nat)
    requires Runnable(Initial(count, byteLimits), calls)
    requires c < |After(Initial(count, byteLimits), calls).caches| && i < count
    ensures var cache := After(Initial(count, byteLimits), calls).caches[c];
      i < |cache| && cache[i].freeCount == |cache[i].freeList| <= cache[i].limit
  {
    InitialInv(count, byteLimits);
    RunKeepsInv(Initial(count, byteLimits), calls, count);
    var s := After(Initial(count, byteLimits), calls);
    assert BucketsOk(s.caches[c], count, s.headers);
    assert BucketOk(s.caches[c][i], i, s.headers);
  }

  /** A block given back to a cache with room is what the cache hands out next for a size of
      the same class, whichever cache it came from; the two calls leave the cache as it was. */
  lemma LastInFirstOut(c: Cache, a: Address, size: Size, storage: Address)
    requires a in c.headers && size >= 1 && c.headers[a].index == Indexer(size) < |c.buckets|
    requires c.buckets[Indexer(size)].freeCount < c.buckets[Indexer(size)].limit
    ensures AllocateBlock(DeallocateBlock(c, a).0, size, storage) == (c, Block(a))
  {
    var b := c.buckets[Indexer(size)];
    assert (b.freeList + [a])[..|b.freeList|] == b.freeList;
    var given := DeallocateBlock(c, a).0.buckets;
    assert given[Indexer(size) := b] == c.buckets;
  }

  // What each call achieves.

  // Whether a cache with these buckets has a block to reuse for a request of `size`.
  predicate HasBlock(buckets: seq<Bucket>, size: Size) {
    Indexer(size) < |buckets| && buckets[Indexer(size)].freeList != []
  }

  /** A positive request is met from the free list of its class whenever that has a block, and
      only then: the newest one leaves the cache.  Otherwise the block is new and no cache
      changes.  A request for nothing fails and changes nothing. */
  lemma AllocateAnswers(s: System, c: nat, call: Call, count: nat)
    requires Inv(s, count) && Enabled(s, c, call) && call.Allocate?
    ensures var (after, reply) := Step(s, c, call);
      if call.size == 0 then reply == BadAlloc && after == s
      else if HasBlock(s.caches[c], call.size) then
        && reply.Block? && TakesLast(s.caches[c], after.caches[c], Indexer(call.size), reply.address)
        && after.headers == s.headers && after.caches == s.caches[c := after.caches[c]]
      else reply == Block(call.storage) && after.caches == s.caches && after.headers.Keys == s.headers.Keys + {call.storage}
  {
    if HasBlock(s.caches[c], call.size) {
      assert BucketOk(s.caches[c][Indexer(call.size)], Indexer(call.size), s.headers);
    }
  }

  // `a` was the last of the free list of bucket `i`, which is shorter by it; all else is kept.
  predicate TakesLast(before: seq<Bucket>, after: seq<Bucket>, i: nat, a: Address) {
    && i < |before| == |after|
    && before[i].freeList == after[i].freeList + [a]
    && before[i].freeCount == after[i].freeCount + 1
    && after == before[i := before[i].(freeCount := after[i].freeCount, freeList := after[i].freeList)]
  }

  /** A block that is given back is cached, as the newest of its class, whenever its class has a
      bucket with room, and only then; otherwise it is returned to the system.  The caller has
      lost it either way. */
  lemma DeallocateAnswers(s: System, c: nat, a: Address, count: nat)
    requires Inv(s, count) && Enabled(s, c, Deallocate(a))
    ensures var (after, reply) := Step(s, c, Deallocate(a)); var i := Indexer(s.live[a]);
      && reply == Done && after.live == s.live - {a}
      && if i < count && |s.caches[c][i].freeList| < s.caches[c][i].limit then
           && TakesLast(after.caches[c], s.caches[c], i, a)
           && after.headers == s.headers && after.caches == s.caches[c := after.caches[c]]
         else after.headers == s.headers - {a} && after.caches == s.caches
  {
    assert LiveOk(s.headers[a], s.live[a], count);
    var i := Indexer(s.live[a]);
    if i < count {
      assert BucketOk(s.caches[c][i], i, s.headers);
    }
  }

  /** Returning the null pointer fails and changes nothing. */
  lemma DeallocateNullAnswers(s: System, c: nat)
    requires Enabled(s, c, DeallocateNull)
    ensures Step(s, c, DeallocateNull) == (s, BadDealloc)
  {
    assert s.caches[c := s.caches[c]] == s.caches;
  }

  // Nothing is cached, and all counters are zero.
  predicate AllEmpty(buckets: seq<Bucket>) {
    forall i | 0 <= i < |buckets| :: buckets[i].freeList == [] && buckets[i].freeCount == 0
  }

  /** After any run, clear() leaves nothing in its cache, returns to the system exactly the
      blocks that were cached there, and touches no other cache and no block in use. */
  lemma ClearReturnsTheCached(count: nat, byteLimits: seq<nat>, calls: seq<(nat, Call)>, c: nat)
    requires Runnable(Initial(count, byteLimits), calls)
    requires Enabled(After(Initial(count, byteLimits), calls), c, Clear)
    ensures var s := After(Initial(count, byteLimits), calls);
      var after := Step(s, c, Clear).0;
      && after.live == s.live && after.caches == s.caches[c := after.caches[c]] && AllEmpty(after.caches[c])
      && (forall a: Address :: a in after.headers <==> a in s.headers && CountBuckets(s.caches[c], a) == 0)
      && (forall a: Address | a in after.headers :: after.headers[a] == s.headers[a])
  {
    var s := After(Initial(count, byteLimits), calls);
    var after := Step(s, c, Clear).0;
    forall a: Address
      ensures a in after.headers <==> a in s.headers && CountBuckets(s.caches[c], a) == 0
    {
      CountBucketsPositive(s.caches[c], a);
    }
  }

  // The buckets have the sizes and limits of the table for this byte limit.
  predicate Configured(buckets: seq<Bucket>, count: nat, byteLimit: nat) {
    && |buckets| == |Table(count, byteLimit)|
    && forall i | 0 <= i < |buckets| ::
         buckets[i].block == Table(count, byteLimit)[i].block && buckets[i].limit == Table(count, byteLimit)[i].limit
  }

  predicate AllConfigured(s: System, count: nat, byteLimits: seq<nat>) {
    |s.caches| == |byteLimits| && forall c | 0 <= c < |byteLimits| :: Configured(s.caches[c], count, byteLimits[c])
  }

  lemma StepKeepsConfiguration(s: System, c: nat, call: Call, count: nat, byteLimits: seq<nat>)
    requires AllConfigured(s, count, byteLimits) && Enabled(s, c, call)
    ensures AllConfigured(Step(s, c, call).0, count, byteLimits)
  {
    assert Configured(s.caches[c], count, byteLimits[c]);
  }

  lemma {:induction false} RunKeepsConfiguration(s: System, calls: seq<(nat, Call)>, count: nat, byteLimits: seq<nat>)
    requires AllConfigured(s, count, byteLimits) && Runnable(s, calls)
    ensures AllConfigured(After(s, calls), count, byteLimits)
    decreases |calls|
  {
    if calls == [] {
    } else {
      StepKeepsConfiguration(s, calls[0].0, calls[0].1, count, byteLimits);
      RunKeepsConfiguration(Step(s, calls[0].0, calls[0].1).0, calls[1..], count, byteLimits);
    }
  }

  /** In every run each cache keeps the block sizes and the limits it was built with. */
  lemma ConfigurationStays(count: nat, byteLimits: seq<nat>, calls: seq<(nat, Call)>)
    requires Runnable(Initial(count, byteLimits), calls)
    ensures AllConfigured(After(Initial(count, byteLimits), calls), count, byteLimits)
  {
    RunKeepsConfiguration(Initial(count, byteLimits), calls, count, byteLimits);
  }

  // The cache as an object.

  /** The process-wide system allocator: the blocks it handed out, with their headers. */
  class SystemAllocator {
    var headers: Headers

    constructor ()
      ensures headers == map[]
    {
      headers := map[];
    }

    method AllocateHeader(size: nat, index: nat, storage: Address) returns (hdr: Address)
      modifies this
      ensures hdr == storage && headers == old(headers)[storage := Header(index, size)]
    {
      hdr := storage;
      headers := headers[hdr := Header(index, size)];
    }

    method DeallocateHeader(hdr: Address)
      modifies this
      ensures headers == old(headers) - {hdr}
    {
      headers := headers - {hdr};
    }
  }

  lemma CachedExtended(buckets: seq<Bucket>, i: nat)
    requires i < |buckets|
    ensures Cached(buckets[..i + 1]) == Cached(buckets[..i]) + set a | a in buckets[i].freeList
  {
    var (before, now) := (buckets[..i], buckets[..i + 1]);
    forall a | a in Cached(now)
      ensures a in Cached(before) || a in buckets[i].freeList
    {
      var j, k :| 0 <= j < |now| && 0 <= k < |now[j].freeList| && now[j].freeList[k] == a;
      if j < i {
        assert before[j].freeList[k] == a;
      }
    }
    forall a | a in Cached(before)
      ensures a in Cached(now)
    {
      var j, k :| 0 <= j < |before| && 0 <= k < |before[j].freeList| && before[j].freeList[k] == a;
      assert now[j].freeList[k] == a;
    }
    assert now[i] == buckets[i];
  }

  class CacheObject {
    var buckets: seq<Bucket>
    const system: SystemAllocator

    function Value(): Cache
      reads this, system
    {
      Cache(buckets, system.headers)
    }

    constructor (info: Info, system: SystemAllocator)
      ensures Value() == Cache(NewBuckets(info.buckets), system.headers) && this.system == system
    {
      buckets := [];
      this.system := system;
      new;
      var i := 0;
      while i < |info.buckets|
        invariant i <= |info.buckets| && buckets == NewBuckets(info.buckets[..i])
      {
        var b := info.buckets[i];
        buckets := buckets + [Bucket(i, b.block, b.limit, 0, [])];
        i := i + 1;
      }
    }

    method AllocateFromBucket(index: nat, storage: Address) returns (hdr: Address)
      requires index < |buckets|
      modifies this, system
      ensures (Value(), hdr) == AllocateFrom(old(Value()), index, storage)
    {
      var b := buckets[index];
      if b.freeList == [] {
        hdr := system.AllocateHeader(b.block, b.index, storage);
      } else {
        hdr := b.freeList[|b.freeList| - 1];
        buckets := buckets[index := b.(freeCount := Less(b.freeCount), freeList := b.freeList[..|b.freeList| - 1])];
      }
    }

    method Allocate(size: Size, storage: Address) returns (reply: Reply)
      modifies this, system
      ensures (Value(), reply) == AllocateBlock(old(Value()), size, storage)
    {
      if size == 0 {
        return BadAlloc;
      }
      var index := Indexer(size);
      var hdr;
      if index < |buckets| {
        hdr := AllocateFromBucket(index, storage);
      } else {
        hdr := system.AllocateHeader(size, index, storage);
      }
      reply := Block(hdr);
    }

    method Deallocate(ptr: Pointer) returns (reply: Reply)
      requires ptr.To? ==> ptr.address in system.headers
      modifies this, system
      ensures ptr.To? ==> (Value(), reply) == DeallocateBlock(old(Value()), ptr.address)
      ensures ptr.Null? ==> (Value(), reply) == (old(Value()), BadDealloc)
    {
      if ptr.Null? {
        return BadDealloc;
      }
      var hdr := ptr.address;
      var index := system.headers[hdr].index;
      if index < |buckets| && buckets[index].freeCount < buckets[index].limit {
        var b := buckets[index];
        buckets := buckets[index := b.(freeCount := b.freeCount + 1, freeList := b.freeList + [hdr])];
      } else {
        system.DeallocateHeader(hdr);
      }
      reply := Done;
    }

    method ClearBucket(i: nat)
      requires i < |buckets|
      modifies this, system
      ensures buckets == old(buckets)[i := old(buckets)[i].(freeCount := 0, freeList := [])]
      ensures system.headers == old(system.headers) - set a | a in old(buckets)[i].freeList
    {
      var list := buckets[i].freeList;
      while list != []
        invariant buckets == old(buckets) && list <= buckets[i].freeList
        invariant system.headers == old(system.headers)
               - set k | |list| <= k < |buckets[i].freeList| :: buckets[i].freeList[k]
        decreases |list|
      {
        system.DeallocateHeader(list[|list| - 1]);
        list := list[..|list| - 1];
      }
      buckets := buckets[i := buckets[i].(freeCount := 0, freeList := list)];
    }

    /** Returns every cached block to the system; the destructor does the same. */
    method Clear()
      modifies this, system
      ensures Value() == ClearAll(old(Value()))
    {
      var i := 0;
      while i < |buckets|
        invariant i <= |buckets| == |old(buckets)|
        invariant buckets == Emptied(old(buckets)[..i]) + old(buckets)[i..]
        invariant system.headers == old(system.headers) - Cached(old(buckets)[..i])
      {
        CachedExtended(old(buckets), i);
        ClearBucket(i);
        i := i + 1;
      }
      assert old(buckets)[..i] == old(buckets);
    }
  }
}
