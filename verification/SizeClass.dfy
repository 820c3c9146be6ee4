/** Size classes of the memory caches: which bucket serves a request, and how many blocks
    each bucket may hold.  Buckets are powers of two; the index is found with a bit count
    and a mask instead of a search. */
module SizeClass {

  const WORD: nat := 0x1_0000_0000_0000_0000

  // A request size, a 64-bit word.
  type Size = s: nat | s < WORD

  function Pow2(i: nat): (p: nat)
    ensures p >= 1
  {
    if i == 0 then 1 else 2 * Pow2(i - 1)
  }

  lemma {:induction false} Pow2Monotone(i: nat, j: nat)
    requires i <= j
    ensures Pow2(i) <= Pow2(j)
    ensures i < j ==> Pow2(i) < Pow2(j)
  {
    if i < j {
      Pow2Monotone(i, j - 1);
    }
  }

  // The one-based position of the highest set bit, zero for zero.
  function BitWidth(n: nat): nat {
    if n == 0 then 0 else 1 + BitWidth(n / 2)
  }

  function BitAnd(a: nat, b: nat): nat {
    if a == 0 || b == 0 then 0
    else 2 * BitAnd(a / 2, b / 2) + if a % 2 == 1 && b % 2 == 1 then 1 else 0
  }

  lemma {:induction false} BitWidthBound(n: nat, i: nat)
    ensures BitWidth(n) <= i <==> n < Pow2(i)
  {
    if n > 0 && i > 0 {
      BitWidthBound(n / 2, i - 1);
    }
  }

  lemma {:induction false} BitAndSelf(n: nat)
    ensures BitAnd(n, n) == n
  {
    if n == 0 {
    } else {
      BitAndSelf(n / 2);
    }
  }

  /** A positive word has no bit in common with its predecessor exactly when it is a power
      of two. */
  lemma {:induction false} MaskDetectsPowers(n: nat)
    requires n >= 1
    ensures BitAnd(n, n - 1) == 0 <==> n == Pow2(BitWidth(n) - 1)
  {
    if n == 1 {
    } else if n % 2 == 0 {
      assert (n - 1) / 2 == n / 2 - 1;
      MaskDetectsPowers(n / 2);
    } else {
      assert (n - 1) / 2 == n / 2;
      BitAndSelf(n / 2);
    }
  }

  /** The index of the bucket for a request.  The result is kept in eight bits and the
      predecessor of zero is the largest word. */
  function Indexer(size: Size): nat {
    var index := (BitWidth(size) - 1) % 256;
    if BitAnd(size, (size - 1) % WORD) != 0 then (index + 1) % 256 else index
  }

  lemma {:induction false} Pow2Sum(i: nat, j: nat)
    ensures Pow2(i + j) == Pow2(i) * Pow2(j)
  {
    if i == 0 {
    } else {
      Pow2Sum(i - 1, j);
    }
  }

  lemma WordWidth(size: Size)
    ensures BitWidth(size) <= 64
  {
    assert Pow2(8) == 0x100 by {
      assert Pow2(4) == 16;
      Pow2Sum(4, 4);
    }
    Pow2Sum(8, 8);
    Pow2Sum(16, 16);
    Pow2Sum(32, 32);
    BitWidthBound(size, 64);
  }

  // In the range of the results neither of the two wraps.
  lemma NothingWraps(size: Size, width: nat)
    requires 1 <= size && 1 <= width <= 64
    ensures (size - 1) % WORD == size - 1 && (width - 1) % 256 == width - 1 && width % 256 == width
  {
  }

  lemma IndexerRoundsUp(size: Size)
    requires size >= 1
    ensures Indexer(size) == if size == Pow2(BitWidth(size) - 1) then BitWidth(size) - 1 else BitWidth(size)
  {
    WordWidth(size);
    MaskDetectsPowers(size);
    NothingWraps(size, BitWidth(size));
  }

  /** The index is the least one whose power of two is large enough for the request. */
  lemma IndexerIsLeast(size: Size, i: nat)
    requires size >= 1
    ensures Indexer(size) <= i <==> size <= Pow2(i)
  {
    IndexerRoundsUp(size);
    var w := BitWidth(size);
    BitWidthBound(size, w);
    BitWidthBound(size, w - 1);
    if i < w {
      Pow2Monotone(i, w - 1);
    } else {
      Pow2Monotone(w, i);
    }
  }

  lemma IndexerIsMonotone(small: Size, large: Size)
    requires 1 <= small <= large
    ensures Indexer(small) <= Indexer(large) <= 64
  {
    var index := Indexer(large);
    IndexerIsLeast(large, index);
    IndexerIsLeast(small, index);
    IndexerRoundsUp(large);
    WordWidth(large);
  }

  // A request of nothing has no size class: it wraps round to the largest index.
  lemma IndexerOfZero()
    ensures Indexer(0) == 255
  {
  }

  datatype BucketInfo = BucketInfo(block: nat, limit: nat)

  function BucketOf(i: nat, byteLimit: nat): BucketInfo {
    var size := Pow2(i);
    BucketInfo(size, (if byteLimit > size then byteLimit else size) / size)
  }

  function Table(count: nat, byteLimit: nat): seq<BucketInfo> {
    seq(count, i requires 0 <= i < count => BucketOf(i, byteLimit))
  }

  /** A bucket holds at least one block, and the most blocks that fit in the byte limit. */
  lemma LimitIsLargest(i: nat, byteLimit: nat, n: nat)
    ensures BucketOf(i, byteLimit).limit >= 1
    ensures n <= BucketOf(i, byteLimit).limit
       <==> n * Pow2(i) <= if byteLimit > Pow2(i) then byteLimit else Pow2(i)
  {
    var size := Pow2(i);
    DivisionBound(if byteLimit > size then byteLimit else size, size, n);
    DivisionBound(if byteLimit > size then byteLimit else size, size, 1);
  }

  lemma DivisionBound(bytes: nat, size: nat, n: nat)
    requires size >= 1
    ensures n <= bytes / size <==> n * size <= bytes
  {
    var q := bytes / size;
    assert q * size <= bytes < (q + 1) * size;
    if n <= q {
      assert n * size <= q * size;
    } else {
      assert (q + 1) * size <= n * size;
    }
  }

  /** Which requests the table serves: those up to its largest block, each from a bucket
      whose block is large enough and less than twice the request. */
  lemma TableServes(count: nat, byteLimit: nat, size: Size)
    requires 1 <= size && 1 <= count
    ensures Indexer(size) < count <==> size <= Pow2(count - 1)
    ensures Indexer(size) < count ==>
      size <= Table(count, byteLimit)[Indexer(size)].block < 2 * size
  {
    IndexerIsLeast(size, count - 1);
    IndexerIsLeast(size, Indexer(size));
    if Indexer(size) > 0 {
      IndexerIsLeast(size, Indexer(size) - 1);
    }
  }

  /** The configuration of a cache.  The block size is a shift of a 32-bit one, so the table
      has at most 31 buckets. */
  class Info {
    var buckets: seq<BucketInfo>

    constructor (bucketCount: nat, byteLimit: nat)
      requires bucketCount <= 31
      ensures buckets == Table(bucketCount, byteLimit)
    {
      buckets := [];
      new;
      var i, size := 0, 1;
      while i < bucketCount
        invariant i <= bucketCount && size == Pow2(i)
        invariant buckets == Table(i, byteLimit)
      {
        var bucketByteLimit := if byteLimit > size then byteLimit else size;
        buckets := buckets + [BucketInfo(size, bucketByteLimit / size)];
        i, size := i + 1, 2 * size;
      }
    }
  }
}
