/** The experimental slab allocator: blocks carved from a few contiguous slabs, whose free
    ones are threaded on a list through their own memory.  Slabs only grow, up to a limit,
    and what does not fit comes from the system.  Which of the two a block is says a flag
    behind the room for one value; the values of an array lie over it. */
module SlabAllocation {

  // How slabs grow.

  function Min(a: nat, b: nat): nat { if a < b then a else b }

  function Max(a: nat, b: nat): nat { if a < b then b else a }

  function BlockCount(limit: nat, total: nat, requested: nat): nat
    requires total < limit
  {
    Min(limit - total, Max(requested, if total > 0 then total * 2 else 1))
  }

  function Pow3(k: nat): nat {
    if k == 0 then 1 else 3 * Pow3(k - 1)
  }

  /** The total after `slabs` slabs, the first one with `first` blocks. */
  function TotalAfter(limit: nat, first: nat, slabs: nat): nat {
    if slabs == 0 then 0 else Min(limit, first * Pow3(slabs - 1))
  }

  lemma {:induction false} Pow3Positive(k: nat)
    ensures Pow3(k) > k
  {
    if k == 0 {
    } else {
      Pow3Positive(k - 1);
    }
  }

  /** The blocks of a first slab, whether it was asked for at construction or not. */
  function FirstSlab(limit: nat, requested: nat): nat {
    Min(limit, Max(requested, 1))
  }

  lemma TotalsTriple(limit: nat, requested: nat, slabs: nat)
    requires TotalAfter(limit, FirstSlab(limit, requested), slabs) < limit
    ensures var total := TotalAfter(limit, FirstSlab(limit, requested), slabs);
      total + BlockCount(limit, total, if slabs == 0 then requested else 0)
        == TotalAfter(limit, FirstSlab(limit, requested), slabs + 1)
  {
    var first := FirstSlab(limit, requested);
    if slabs > 0 {
      Pow3Positive(slabs - 1);
      Product(first, Pow3(slabs - 1));
      Triple(first, slabs);
    }
  }

  lemma TotalsTripleFrom(limit: nat, size: nat)
    requires size > 0
    ensures limit > 0 ==> BlockCount(limit, 0, size) == TotalAfter(limit, FirstSlab(limit, size), 1) == Min(limit, size)
  {
    assert Pow3(0) == 1;
  }

  lemma Product(a: nat, b: nat)
    ensures a >= 1 && b >= 1 ==> a * b >= b && a * b >= a
  {
  }

  lemma Triple(first: nat, k: nat)
    requires k > 0
    ensures first * Pow3(k) == 3 * (first * Pow3(k - 1))
  {
  }

  /** The least k with 3^k >= n. */
  function CeilLog3(n: nat): (k: nat)
    ensures Pow3(k) >= n
    ensures k > 0 ==> Pow3(k - 1) < n
  {
    Pow3Positive(n);
    LeastPower(n, n)
  }

  function LeastPower(n: nat, k: nat): (least: nat)
    requires Pow3(k) >= n
    ensures Pow3(least) >= n
    ensures least > 0 ==> Pow3(least - 1) < n
  {
    if k > 0 && Pow3(k - 1) >= n then LeastPower(n, k - 1) else k
  }

  lemma {:induction false} Pow3Monotone(j: nat, k: nat)
    requires j <= k
    ensures Pow3(j) <= Pow3(k)
  {
    if j < k {
      Pow3Monotone(j, k - 1);
    }
  }

  /** A slab is added only while the total is below the limit, so few are ever added. */
  lemma FewSlabs(limit: nat, slabs: nat)
    requires slabs > 0 && TotalAfter(limit, FirstSlab(limit, 0), slabs - 1) < limit
    ensures slabs <= 1 + CeilLog3(limit)
  {
    if slabs >= 2 {
      assert Pow3(slabs - 2) < limit;
      if CeilLog3(limit) <= slabs - 2 {
        Pow3Monotone(CeilLog3(limit), slabs - 2);
      }
    }
  }

  /** Asking for the whole limit at construction leaves room for that one slab only. */
  lemma OneSlabWhenPreCached(limit: nat, requested: nat, slabs: nat)
    requires requested >= limit && slabs > 0 && TotalAfter(limit, FirstSlab(limit, requested), slabs - 1) < limit
    ensures slabs == 1
  {
    if slabs >= 2 {
      Pow3Positive(slabs - 2);
      Product(FirstSlab(limit, requested), Pow3(slabs - 2));
    }
  }

  // The allocator.

  type Byte = b: nat | b < 256

  const POINTER_SIZE: nat := 8

  // Where the flag of a block is: behind the storage of one value, which has room for a
  // pointer at least.
  function FlagOffset(valueSize: nat): nat {
    Max(valueSize, POINTER_SIZE)
  }

  // Whether an array of `n` values ends before the flag of its first block.
  predicate ClearsFlag(n: nat, valueSize: nat) {
    n * valueSize <= FlagOffset(valueSize)
  }

  lemma OneValueClearsFlag(valueSize: nat)
    ensures ClearsFlag(1, valueSize)
  {
  }

  // A block with its flag, a byte that reads as true unless it is zero.
  class Block {
    ghost const foreign: bool  // from the system, and no part of a slab
    var next: Block?
    var flag: Byte

    constructor (ghost foreign: bool)
      ensures this.foreign == foreign
    {
      this.foreign := foreign;
      next, flag := null, 0;
    }
  }

  ghost predicate Distinct(s: seq<Block>) {
    forall i, j | 0 <= i < j < |s| :: s[i] != s[j]
  }

  ghost function Elements(s: seq<Block>): set<Block> {
    set b | b in s
  }

  // Every block of the list points to the one after it, the last one to nothing.
  ghost predicate Linked(list: seq<Block>)
    reads list
  {
    forall i {:trigger list[i].next} | 0 <= i < |list| ::
      list[i].next == if i + 1 < |list| then list[i + 1] else null
  }

  function Flatten(slabs: seq<seq<Block>>): seq<Block> {
    if slabs == [] then [] else Flatten(slabs[..|slabs| - 1]) + slabs[|slabs| - 1]
  }

  function Reversed(s: seq<Block>): (r: seq<Block>)
    ensures |r| == |s|
  {
    seq(|s|, i requires 0 <= i < |s| => s[|s| - 1 - i])
  }

  ghost predicate Apart(a: seq<Block>, b: seq<Block>) {
    forall i, j | 0 <= i < |a| && 0 <= j < |b| :: a[i] != b[j]
  }

  // Every one of `blocks` is on the free list, once, or in use, and not both.
  ghost predicate Partition(free: seq<Block>, used: set<Block>, blocks: seq<Block>) {
    && Distinct(blocks) && Distinct(free) && Elements(free) !! used
    && Elements(free) + used == Elements(blocks)
  }

  lemma {:induction false} DistinctSize(s: seq<Block>)
    requires Distinct(s)
    ensures |Elements(s)| == |s|
  {
    if s == [] {
    } else {
      DistinctSize(s[1..]);
      assert Elements(s) == {s[0]} + Elements(s[1..]);
    }
  }

  /** They are counted by the free list and the blocks in use. */
  lemma PartitionCounts(free: seq<Block>, used: set<Block>, blocks: seq<Block>)
    requires Partition(free, used, blocks)
    ensures |blocks| == |free| + |used|
  {
    DistinctSize(free);
    DistinctSize(blocks);
    assert |Elements(free) + used| == |Elements(free)| + |used|;
  }

  lemma HandOut(b: Block, free: seq<Block>, used: set<Block>, blocks: seq<Block>)
    requires Partition([b] + free, used, blocks)
    ensures Partition(free, used + {b}, blocks)
  {
    assert ([b] + free)[0] == b;
    assert forall i | 0 <= i < |free| :: free[i] == ([b] + free)[i + 1];
    assert Elements([b] + free) == {b} + Elements(free);
  }

  lemma HandBack(b: Block, free: seq<Block>, used: set<Block>, blocks: seq<Block>)
    requires Partition(free, used, blocks) && b in used
    ensures Partition([b] + free, used - {b}, blocks)
  {
    assert Elements([b] + free) == {b} + Elements(free);
    assert used == (used - {b}) + {b};
  }

  // A block from elsewhere that enters the list becomes one of its members.
  lemma Intrudes(b: Block, free: seq<Block>, used: set<Block>, members: seq<Block>)
    requires Partition(free, used, members) && forall i | 0 <= i < |members| :: members[i] != b
    ensures Partition([b] + free, used, members + [b])
  {
    assert Elements([b] + free) == {b} + Elements(free);
    assert Elements(members + [b]) == Elements(members) + {b};
    forall i | 0 <= i < |free| ensures free[i] != b { assert free[i] in Elements(free); }
  }

  lemma ReversedOnto(slab: seq<Block>, free: seq<Block>)
    requires Distinct(slab) && Distinct(free) && Apart(slab, free)
    ensures Distinct(Reversed(slab) + free) && Elements(Reversed(slab) + free) == Elements(slab) + Elements(free)
  {
    var list := Reversed(slab) + free;
    forall b | b in slab
      ensures b in list
    {
      var i :| 0 <= i < |slab| && slab[i] == b;
      assert list[|slab| - 1 - i] == b;
    }
    forall b | b in free
      ensures b in list
    {
      var i :| 0 <= i < |free| && free[i] == b;
      assert list[|slab| + i] == b;
    }
  }

  lemma GrowPartition(slab: seq<Block>, free: seq<Block>, used: set<Block>, blocks: seq<Block>)
    requires Partition(free, used, blocks) && Distinct(slab) && Elements(slab) !! Elements(blocks)
    ensures Apart(slab, free)
    ensures Partition(Reversed(slab) + free, used, blocks + slab)
  {
    forall i, j | 0 <= i < |slab| && 0 <= j < |free|
      ensures slab[i] != free[j]
    {
      assert slab[i] in Elements(slab) && free[j] in Elements(free);
    }
    ReversedOnto(slab, free);
    assert Elements(blocks + slab) == Elements(blocks) + Elements(slab);
    forall i, j | 0 <= i < |blocks| && 0 <= j < |slab|
      ensures blocks[i] != slab[j]
    {
      assert blocks[i] in Elements(blocks) && slab[j] in Elements(slab);
    }
  }

  // A new slab is threaded from its first block, which points to the old list, to its last.
  ghost predicate ThreadedSlab(slab: seq<Block>, n: nat, tail: Block?)
    requires 1 <= n <= |slab|
    reads slab
  {
    && slab[0].next == tail
    && (forall j {:trigger slab[j].next} | 1 <= j < n :: slab[j].next == slab[j - 1])
    && forall j {:trigger slab[j].flag} | 0 <= j < n :: slab[j].flag == 1
  }

  lemma ThreadedSlabIsLinked(slab: seq<Block>, free: seq<Block>)
    requires |slab| > 0 && ThreadedSlab(slab, |slab|, if free == [] then null else free[0])
    requires Linked(free)
    ensures Linked(Reversed(slab) + free)
  {
    var list := Reversed(slab) + free;
    forall i {:trigger list[i].next} | 0 <= i < |list|
      ensures list[i].next == if i + 1 < |list| then list[i + 1] else null
    {
      if i < |slab| {
        assert list[i] == slab[|slab| - 1 - i];
      } else {
        assert list[i] == free[i - |slab|];
      }
    }
  }

  ghost predicate Marked(blocks: seq<Block>)
    reads blocks
  {
    forall i {:trigger blocks[i].flag} | 0 <= i < |blocks| :: blocks[i].flag != 0
  }

  // The blocks of slabs among `s`, and the others.
  ghost function FromSlabs(s: seq<Block>): seq<Block> {
    if s == [] then []
    else FromSlabs(s[..|s| - 1]) + if s[|s| - 1].foreign then [] else [s[|s| - 1]]
  }

  ghost function FromElsewhere(s: seq<Block>): seq<Block> {
    if s == [] then []
    else FromElsewhere(s[..|s| - 1]) + if s[|s| - 1].foreign then [s[|s| - 1]] else []
  }

  lemma {:induction false} SlabJoins(s: seq<Block>, slab: seq<Block>)
    requires forall i | 0 <= i < |slab| :: !slab[i].foreign
    ensures FromSlabs(s + slab) == FromSlabs(s) + slab && FromElsewhere(s + slab) == FromElsewhere(s)
    decreases |slab|
  {
    if slab == [] {
      assert s + slab == s;
    } else {
      assert (s + slab)[..|s + slab| - 1] == s + slab[..|slab| - 1];
      SlabJoins(s, slab[..|slab| - 1]);
    }
  }

  lemma StrayJoins(s: seq<Block>, b: Block)
    requires b.foreign
    ensures FromSlabs(s + [b]) == FromSlabs(s) && FromElsewhere(s + [b]) == FromElsewhere(s) + [b]
  {
    assert (s + [b])[..|s|] == s;
  }

  lemma {:induction false} BothAccountFor(s: seq<Block>)
    ensures |s| == |FromSlabs(s)| + |FromElsewhere(s)|
    ensures forall b | b in FromSlabs(s) || b in FromElsewhere(s) :: b in s
    decreases |s|
  {
    if s == [] {
    } else {
      BothAccountFor(s[..|s| - 1]);
    }
  }

  // The members of the list are the blocks of the slabs, and strays.
  ghost predicate Accounted(slabs: seq<seq<Block>>, members: seq<Block>, total: nat) {
    FromSlabs(members) == Flatten(slabs) && total == |Flatten(slabs)|
  }

  lemma SlabAccounted(slabs: seq<seq<Block>>, members: seq<Block>, total: nat, slab: seq<Block>)
    requires Accounted(slabs, members, total) && forall i | 0 <= i < |slab| :: !slab[i].foreign
    ensures Accounted(slabs + [slab], members + slab, total + |slab|)
    ensures FromElsewhere(members + slab) == FromElsewhere(members)
  {
    SlabJoins(members, slab);
    assert (slabs + [slab])[..|slabs|] == slabs;
  }

  // A block of the system that a caller holds with `n` values is not on the list, and its
  // flag is down unless the values reach it.
  ghost predicate Outside(b: Block, n: nat, members: seq<Block>, valueSize: nat)
    reads b
  {
    && b.foreign && (ClearsFlag(n, valueSize) ==> b.flag == 0)
    && forall i | 0 <= i < |members| :: members[i] != b
  }

  class SlabAllocator {
    const valueSize: nat
    var limit: nat
    var total: nat
    var available: nat
    var freeHead: Block?
    var slabs: seq<seq<Block>>
    ghost var members: seq<Block>          // every block that was ever on the list, as they came
    ghost var free: seq<Block>
    ghost var used: set<Block>
    ghost var overflow: map<Block, nat>    // blocks of the system with their array lengths
    ghost var requested: nat

    // The list from the head, with its exact length.
    ghost predicate Threaded()
      reads this, free
    {
      Linked(free) && available == |free| && freeHead == if free == [] then null else free[0]
    }

    // The list holds those of the members that are not in use, which all carry the flag.
    ghost predicate Listed()
      reads this, free, members
    {
      Threaded() && Partition(free, used, members) && Marked(members)
    }

    ghost predicate Sound()
      reads this, free, members, overflow.Keys
    {
      && Listed() && Accounted(slabs, members, total)
      && forall b | b in overflow :: Outside(b, overflow[b], members, valueSize)
    }

    // The blocks of the system that got on the list.
    ghost function Strays(): seq<Block>
      reads this
    {
      FromElsewhere(members)
    }

    // The total is what growth from the first slab gives, and no slab was added in vain.
    ghost predicate Grown()
      reads this
    {
      && (slabs == [] ==> requested == 0 || limit == 0)
      && total == TotalAfter(limit, FirstSlab(limit, requested), |slabs|)
      && (|slabs| > 0 ==> TotalAfter(limit, FirstSlab(limit, requested), |slabs| - 1) < limit)
    }

    constructor Empty(valueSize: nat, blockLimit: nat)
      ensures Sound() && Grown() && limit == blockLimit && slabs == [] && free == [] && requested == 0
      ensures used == {} && Strays() == [] && overflow == map[] && this.valueSize == valueSize
    {
      this.valueSize := valueSize;
      limit, total, available := blockLimit, 0, 0;
      freeHead, slabs, members, free := null, [], [], [];
      used, overflow := {}, map[];
      requested := 0;
    }

    constructor PreCached(valueSize: nat, blockLimit: nat, size: nat)
      ensures Sound() && Grown() && limit == blockLimit && requested == size
      ensures used == {} && Strays() == [] && overflow == map[] && this.valueSize == valueSize
      ensures total == if size > 0 then Min(limit, size) else 0
    {
      this.valueSize := valueSize;
      limit, total, available := blockLimit, 0, 0;
      freeHead, slabs, members, free := null, [], [], [];
      used, overflow := {}, map[];
      requested := size;
      new;
      if size > 0 {
        TotalsTripleFrom(limit, size);
        var _ := Grow(size);
      }
    }

    static method AllocateSlab(count: nat) returns (slab: seq<Block>)
      ensures |slab| == count && fresh(slab) && Distinct(slab)
      ensures forall i | 0 <= i < |slab| :: !slab[i].foreign
    {
      slab := [];
      while |slab| < count
        invariant |slab| <= count && fresh(slab) && Distinct(slab)
        invariant forall i | 0 <= i < |slab| :: !slab[i].foreign
      {
        var b := new Block(false);
        slab := slab + [b];
      }
    }

    static method Thread(slab: seq<Block>, tail: Block?) returns (head: Block)
      requires |slab| > 0 && Distinct(slab)
      modifies slab
      ensures head == slab[|slab| - 1] && ThreadedSlab(slab, |slab|, tail)
    {
      var current := slab[0];
      current.next := tail;
      current.flag := 1;
      var i := 1;
      while i < |slab|
        invariant 1 <= i <= |slab| && current == slab[i - 1] && ThreadedSlab(slab, i, tail)
      {
        var next := slab[i];
        next.next := current;
        next.flag := 1;
        current := next;
        i := i + 1;
      }
      head := current;
    }

    method LinkSlab(slab: seq<Block>)
      requires Threaded() && |slab| > 0 && Distinct(slab) && Apart(slab, free)
      modifies this`freeHead, this`free, this`available, slab
      ensures Threaded() && free == Reversed(slab) + old(free)
      ensures Marked(slab)
    {
      assert forall i | 0 <= i < |free| :: free[i] !in slab;
      available := available + |slab|;
      freeHead := Thread(slab, freeHead);
      ThreadedSlabIsLinked(slab, free);
      free := Reversed(slab) + free;
    }

    // A new slab becomes part of the list.
    method ListSlab(slab: seq<Block>)
      requires Listed() && |slab| > 0 && Distinct(slab)
      requires forall i | 0 <= i < |members| :: members[i] !in slab
      modifies this`available, this`freeHead, this`free, this`members, slab
      ensures Listed() && free == Reversed(slab) + old(free) && members == old(members) + slab
    {
      assert Elements(slab) !! Elements(members);
      GrowPartition(slab, free, used, members);
      LinkSlab(slab);
      members := members + slab;
    }

    method Grow(requested: nat) returns (grown: bool)
      requires Listed() && Accounted(slabs, members, total)
      modifies this`total, this`available, this`freeHead, this`slabs, this`members, this`free
      ensures Listed() && Accounted(slabs, members, total) && Strays() == old(Strays())
      ensures grown == (old(total) < limit)
      ensures total == if grown then old(total) + BlockCount(limit, old(total), requested) else old(total)
      ensures if grown then free != [] && Added(old(slabs), BlockCount(limit, old(total), requested))
              else slabs == old(slabs) && free == old(free)
      ensures |members| >= |old(members)| && members[..|old(members)|] == old(members)
      ensures forall i | |old(members)| <= i < |members| :: !members[i].foreign
    {
      if total >= limit {
        return false;
      }
      var count := BlockCount(limit, total, requested);
      var slab := AllocateSlab(count);
      assert forall i | 0 <= i < |members| :: members[i] !in slab;
      SlabAccounted(slabs, members, total, slab);
      ListSlab(slab);
      slabs := slabs + [slab];
      total := total + count;
      grown := true;
    }

    ghost predicate Added(before: seq<seq<Block>>, count: nat)
      reads this
    {
      |slabs| == |before| + 1 && slabs[..|before|] == before && |slabs[|before|]| == count
    }

    method Unlink() returns (b: Block)
      requires Threaded() && available > 0
      modifies this`available, this`freeHead, this`free
      ensures Threaded() && old(free) == [b] + free
    {
      b := freeHead;
      freeHead := freeHead.next;
      available := available - 1;
      free := free[1..];
    }

    method Link(b: Block)
      requires Threaded() && b !in free
      modifies this`available, this`freeHead, this`free, b`next
      ensures Threaded() && free == [b] + old(free)
    {
      assert forall i | 0 <= i < |free| :: free[i] in free;
      b.next := freeHead;
      freeHead := b;
      available := available + 1;
      free := [b] + free;
    }

    method PopFree() returns (b: Block)
      requires Listed() && available > 0
      modifies this`available, this`freeHead, this`free, this`used
      ensures Listed() && old(free) == [b] + free && used == old(used) + {b} && b in members
    {
      b := Unlink();
      HandOut(b, free, used, members);
      used := used + {b};
      assert b in Elements(members);
    }

    // Pushes a block in use, or makes a marked block from elsewhere a member.
    method PushFree(b: Block)
      requires Listed() && (b in used || ((forall i | 0 <= i < |members| :: members[i] != b) && b.flag != 0))
      modifies this`available, this`freeHead, this`free, this`used, this`members, b`next
      ensures Listed() && free == [b] + old(free) && used == old(used) - {b}
      ensures members == if b in old(used) then old(members) else old(members) + [b]
    {
      if b in used {
        HandBack(b, free, used, members);
      } else {
        Intrudes(b, free, used, members);
      }
      assert b !in Elements(free);
      Link(b);
      members := if b in used then members else members + [b];
      used := used - {b};
    }

    /** One block comes from the free list while it has one or may grow; everything else comes
        from the system with its flag down.  Nothing at all is refused (null). */
    method Allocate(n: nat) returns (b: Block?)
      requires Sound()
      modifies this`total, this`available, this`freeHead, this`slabs, this`members,
               this`free, this`used, this`overflow
      ensures Sound() && (old(Grown()) ==> Grown()) && Strays() == old(Strays())
      ensures b == null <==> n == 0
      ensures old(Serves(n)) ==> b !in old(used) && used == old(used) + {b} && overflow == old(overflow)
      ensures old(Serves(n)) && old(available) > 0 ==> old(free) == [b] + free && slabs == old(slabs)
      ensures !old(Serves(n)) ==> used == old(used) && free == old(free) && slabs == old(slabs)
      ensures !old(Serves(n)) && n > 0 ==> fresh(b) && b.flag == 0 && overflow == old(overflow)[b := n]
    {
      if n == 1 {
        var some := available > 0;
        if !some {
          some := GrowOne();
        }
        if some {
          b := PopFree();
          return;
        }
      }
      b := AllocateElsewhere(n);
    }

    // Whether `n` values are served from the list.
    predicate Serves(n: nat)
      reads this
    {
      n == 1 && (available > 0 || total < limit)
    }

    method AllocateElsewhere(n: nat) returns (b: Block?)
      requires Sound()
      modifies this`overflow
      ensures Sound() && (b == null <==> n == 0)
      ensures b != null ==> fresh(b) && b.flag == 0 && overflow == old(overflow)[b := n]
    {
      if n == 0 {
        return null;
      }
      var foreign := new Block(true);
      foreign.flag := 0;
      overflow := overflow[foreign := n];
      b := foreign;
    }

    method GrowOne() returns (grown: bool)
      requires Sound()
      modifies this`total, this`available, this`freeHead, this`slabs, this`members, this`free
      ensures Sound() && (old(Grown()) ==> Grown()) && Strays() == old(Strays())
      ensures grown == (old(total) < limit)
      ensures if grown then free != [] else slabs == old(slabs) && free == old(free)
    {
      if total < limit && Grown() {
        TotalsTriple(limit, requested, |slabs|);
      }
      grown := Grow(0);
    }

    // How many values a caller was given with block `b`.
    ghost function Held(b: Block): nat
      requires b in used || b in overflow
      reads this
    {
      if b in overflow then overflow[b] else 1
    }

    /** A caller writes a byte of its values.  Only in an array is the flag among them. */
    method Write(b: Block, offset: nat, byte: Byte)
      requires Sound() && (b in used || b in overflow) && offset < Held(b) * valueSize
      modifies b`flag
      ensures Sound() && b.flag == if offset == FlagOffset(valueSize) then byte else old(b.flag)
      ensures ClearsFlag(Held(b), valueSize) ==> b.flag == old(b.flag)
    {
      if b in used {
        assert b in Elements(members);
      }
      if offset == FlagOffset(valueSize) {
        b.flag := byte;
      }
    }

    /** The first block of what is given back is asked for its flag.  A block that was handed
        out from the list becomes its first again.  A block of the system stays out of the
        list exactly when its values end before the flag, or left a zero there. */
    method Deallocate(b: Block, n: nat)
      requires Sound() && (b in used || b in overflow) && n == Held(b)
      modifies this`available, this`freeHead, this`free, this`used, this`members, this`overflow, b`next
      ensures Sound() && (old(Grown()) ==> Grown()) && used == old(used) - {b} && overflow == old(overflow) - {b}
      ensures b in old(used) ==> free == [b] + old(free) && Strays() == old(Strays())
      ensures b in old(overflow) && StaysOut(n, old(b.flag)) ==> free == old(free) && Strays() == old(Strays())
      ensures b in old(overflow) && !StaysOut(n, old(b.flag))
          ==> free == [b] + old(free) && Strays() == old(Strays()) + [b]
    {
      if b in used {
        assert b in Elements(members);
      }
      if b.flag != 0 {
        PushFlagged(b);
      } else {
        overflow := overflow - {b};
      }
    }

    method PushFlagged(b: Block)
      requires Sound() && (b in used || b in overflow) && b.flag != 0
      modifies this`available, this`freeHead, this`free, this`used, this`members, this`overflow, b`next
      ensures Sound() && free == [b] + old(free) && used == old(used) - {b} && overflow == old(overflow) - {b}
      ensures Strays() == if b in old(used) then old(Strays()) else old(Strays()) + [b]
    {
      if b !in used {
        StrayJoins(members, b);
      } else {
        UsedIsNoOverflow(b);
      }
      PushFree(b);
      overflow := overflow - {b};
    }

    lemma UsedIsNoOverflow(b: Block)
      requires Sound() && b in used
      ensures b !in overflow
    {
      assert b in Elements(members);
    }

    predicate StaysOut(n: nat, flag: Byte) {
      ClearsFlag(n, valueSize) || flag == 0
    }

    /** How many slabs there can be, with and without pre-caching. */
    lemma SlabsAreFew()
      requires Grown() && limit > 0
      ensures requested == 0 ==> |slabs| <= 1 + CeilLog3(limit)
      ensures requested >= limit ==> |slabs| <= 1
    {
      if |slabs| > 0 {
        if requested == 0 {
          FewSlabs(limit, |slabs|);
        }
        if requested >= limit {
          OneSlabWhenPreCached(limit, requested, |slabs|);
        }
      }
    }

    /** Every block of the slabs, and every stray, is free or used and not both; the counters
        are exact if and only if there is no stray. */
    lemma BlocksAreConserved()
      requires Sound()
      ensures total + |Strays()| == available + |used|
      ensures total == available + |used| <==> Strays() == []
      ensures forall b | b in Flatten(slabs) || b in Strays() :: (b in free) != (b in used)
      ensures Grown() ==> total <= limit
    {
      PartitionCounts(free, used, members);
      BothAccountFor(members);
      assert forall b | b in members :: b in Elements(members);
      assert forall b | b in free :: b in Elements(free);
    }

    method SwapLists(rhs: SlabAllocator)
      requires Listed() && rhs.Listed() && rhs != this
      modifies this`available, this`freeHead, this`free, this`used, this`members,
               rhs`available, rhs`freeHead, rhs`free, rhs`used, rhs`members
      ensures Listed() && rhs.Listed() && free == old(rhs.free) && rhs.free == old(free)
      ensures used == old(rhs.used) && rhs.used == old(used)
      ensures members == old(rhs.members) && rhs.members == old(members)
    {
      available, rhs.available := rhs.available, available;
      freeHead, rhs.freeHead := rhs.freeHead, freeHead;
      free, rhs.free := rhs.free, free;
      members, rhs.members := rhs.members, members;
      used, rhs.used := rhs.used, used;
    }

    method SwapSlabs(rhs: SlabAllocator)
      requires Listed() && rhs.Listed() && rhs != this
      requires Accounted(slabs, members, total) && Accounted(rhs.slabs, rhs.members, rhs.total)
      modifies this`available, this`freeHead, this`free, this`used, this`members, this`total, this`slabs,
               rhs`available, rhs`freeHead, rhs`free, rhs`used, rhs`members, rhs`total, rhs`slabs
      ensures Listed() && rhs.Listed() && free == old(rhs.free) && rhs.free == old(free)
      ensures Accounted(slabs, members, total) && Accounted(rhs.slabs, rhs.members, rhs.total)
      ensures used == old(rhs.used) && rhs.used == old(used)
      ensures members == old(rhs.members) && rhs.members == old(members)
      ensures total == old(rhs.total) && rhs.total == old(total) && slabs == old(rhs.slabs) && rhs.slabs == old(slabs)
    {
      SwapLists(rhs);
      total, rhs.total := rhs.total, total;
      slabs, rhs.slabs := rhs.slabs, slabs;
    }

    /** Moving exchanges everything but the limits: each allocator keeps its own, and is within
        it exactly when what it received is. */
    method Move(rhs: SlabAllocator)
      requires Sound() && rhs.Sound() && rhs != this && rhs.valueSize == valueSize
      modifies this, rhs
      ensures Sound() && rhs.Sound() && limit == old(limit) && rhs.limit == old(rhs.limit)
      ensures total == old(rhs.total) && slabs == old(rhs.slabs) && free == old(rhs.free) && used == old(rhs.used)
      ensures rhs.total == old(total) && rhs.slabs == old(slabs) && rhs.free == old(free) && rhs.used == old(used)
      ensures total <= limit <==> old(rhs.total) <= old(limit)
      ensures rhs.total <= rhs.limit <==> old(total) <= old(rhs.limit)
    {
      SwapSlabs(rhs);
      overflow, rhs.overflow := rhs.overflow, overflow;
      requested, rhs.requested := rhs.requested, requested;
    }
  }

  /** So a moved-to allocator can stand above its limit: here three blocks and a limit of one. */
  method MoveCanExceedLimit() returns (target: SlabAllocator)
    ensures target.Sound() && target.total > target.limit
  {
    target := new SlabAllocator.Empty(8, 1);
    var source := new SlabAllocator.PreCached(8, 3, 3);
    target.Move(source);
  }

  /** And an array of two eight-byte values, the second of which is not zero, enters the free
      list of an allocator without a slab when it is given back. */
  method ArrayEntersFreeList() returns (a: SlabAllocator)
    ensures a.Sound() && a.total == 0 && a.available == 1
  {
    a := new SlabAllocator.Empty(8, 4);
    var b := a.Allocate(2);
    a.Write(b, 8, 1);
    a.Deallocate(b, 2);
  }
}
