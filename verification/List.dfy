/** The singly linked list of the library, with tail pointer, exact size, constant-time
    concatenation, and a private pool of node blocks.  The abstract state of a list is
    the sequence of nodes reachable from its head; every block a list ever allocated is
    on its spine, in its pool, or freed. */
module NodeList {

  class Node<T> {
    var value: T
    var next: Node?<T>

    constructor (value: T)
      ensures this.value == value && next == null
    {
      this.value, next := value, null;
    }
  }

  ghost predicate Distinct<T>(s: seq<T>) {
    forall i, j | 0 <= i < j < |s| :: s[i] != s[j]
  }

  ghost predicate Apart<T>(a: seq<T>, b: seq<T>) {
    forall i, j | 0 <= i < |a| && 0 <= j < |b| :: a[i] != b[j]
  }

  ghost predicate Outside<T>(a: seq<T>, b: set<T>) {
    forall i | 0 <= i < |a| :: a[i] !in b
  }

  ghost function Elements<T>(s: seq<T>): set<T> {
    set x | x in s
  }

  lemma ElementsSplit<T>(first: T, s: seq<T>, last: T)
    ensures Elements([first] + s) == {first} + Elements(s)
    ensures Elements(s + [last]) == Elements(s) + {last}
  {
  }

  // Without its first element, a sequence has nothing in common with it, nor with what
  // the whole sequence was apart from.
  lemma TailApart<T>(first: T, rest: seq<T>, s: seq<T>, b: set<T>)
    requires Distinct([first] + rest) && Apart([first] + rest, s) && Outside([first] + rest, b)
    ensures first !in s && first !in b
    ensures Apart(rest, s) && Apart(rest, s + [first]) && Outside(rest, b) && Outside(rest, b + {first})
  {
    assert ([first] + rest)[0] == first;
    assert forall i | 0 <= i < |rest| :: rest[i] == ([first] + rest)[i + 1];
  }

  // Every node of the sequence points to the one after it, the last one to nothing.
  ghost predicate Linked<T>(nodes: seq<Node<T>>)
    reads nodes
  {
    forall i {:trigger nodes[i].next} | 0 <= i < |nodes| ::
      nodes[i].next == if i + 1 < |nodes| then nodes[i + 1] else null
  }

  ghost function ValuesOf<T>(nodes: seq<Node<T>>): (vs: seq<T>)
    reads nodes
    ensures |vs| == |nodes|
  {
    seq(|nodes|, i requires 0 <= i < |nodes| reads nodes => nodes[i].value)
  }

  class List<T> {
    var head: Node?<T>
    var tail: Node?<T>
    var size: nat
    var blockLimit: nat
    var pool: seq<Node<T>>
    ghost var spine: seq<Node<T>>
    ghost var freed: set<Node<T>>

    ghost predicate Valid()
      reads this, spine
    {
      Threaded() && Stocked() && Apart(spine, pool) && Outside(spine, freed)
    }

    // The nodes on the spine are linked from head to tail.
    ghost predicate Threaded()
      reads this, spine
    {
      && size == |spine| && Distinct(spine) && Linked(spine)
      && if spine == [] then head == null else head == spine[0] && tail == spine[|spine| - 1]
    }

    // The pool keeps to its limit, and holds blocks that were not given back.
    ghost predicate Stocked()
      reads this
    {
      Distinct(pool) && |pool| <= blockLimit && Outside(pool, freed)
    }

    ghost function Contents(): seq<T>
      reads this, spine
    {
      ValuesOf(spine)
    }

    // No block belongs to both lists.
    ghost predicate Separate(rhs: List<T>)
      reads this, rhs
    {
      && Apart(spine, rhs.spine) && Apart(spine, rhs.pool) && Outside(spine, rhs.freed)
      && Apart(pool, rhs.spine) && Apart(pool, rhs.pool) && Outside(pool, rhs.freed)
      && Outside(rhs.spine, freed) && Outside(rhs.pool, freed) && freed !! rhs.freed
    }

    lemma SeparateBlocks(rhs: List<T>)
      ensures Separate(rhs) <==> Blocks() !! rhs.Blocks()
    {
      if Blocks() !! rhs.Blocks() {
        assert forall i | 0 <= i < |spine| :: spine[i] in Blocks();
        assert forall i | 0 <= i < |pool| :: pool[i] in Blocks();
        assert forall i | 0 <= i < |rhs.spine| :: rhs.spine[i] in rhs.Blocks();
        assert forall i | 0 <= i < |rhs.pool| :: rhs.pool[i] in rhs.Blocks();
      }
    }

    // Every block this list is responsible for, or has given back to the system.
    ghost function Blocks(): set<Node<T>>
      reads this
    {
      Elements(spine) + Elements(pool) + freed
    }

    constructor (blockLimit: nat)
      ensures Valid() && Contents() == [] && Blocks() == {} && this.blockLimit == blockLimit
    {
      head, tail, size := null, null, 0;
      this.blockLimit, pool := blockLimit, [];
      spine, freed := [], {};
    }

    method Front() returns (t: T)
      requires Valid() && size > 0
      ensures t == Contents()[0]
    {
      t := head.value;
    }

    // A block from the pool if there is one, with `value` constructed in it.
    method Allocate(value: T) returns (node: Node<T>)
      requires Valid()
      modifies this`pool, pool
      ensures Valid() && node !in spine && node !in pool && node !in freed
      ensures node.value == value && node.next == null
      ensures ValuesOf(spine) == old(ValuesOf(spine))
      ensures if |old(pool)| > 0 then old(pool) == pool + [node] else fresh(node) && pool == []
      ensures forall n :: n in old(pool) <==> n in pool || (n == node && !fresh(node))
    {
      if |pool| > 0 {
        node := pool[|pool| - 1];
        pool := pool[..|pool| - 1];
        node.value, node.next := value, null;
        assert old(pool) == pool + [node];
      } else {
        node := new Node(value);
      }
    }

    // The block goes to the pool while there is room, and back to the system otherwise.
    method Deallocate(node: Node<T>)
      requires Stocked() && node !in pool && node !in freed
      modifies this`pool, this`freed
      ensures Stocked()
      ensures if |old(pool)| < blockLimit then pool == old(pool) + [node] && freed == old(freed)
              else pool == old(pool) && freed == old(freed) + {node}
    {
      if |pool| < blockLimit {
        pool := pool + [node];
      } else {
        freed := freed + {node};
      }
    }

    method LinkBack(next: Node<T>)
      requires Threaded() && next !in spine && next.next == null
      modifies this`head, this`tail, this`size, this`spine, spine
      ensures Threaded() && spine == old(spine) + [next]
      ensures ValuesOf(spine) == old(ValuesOf(spine)) + [next.value] && next.value == old(next.value)
    {
      if size > 0 {
        tail.next := next;
        tail := next;
      } else {
        head := next;
        tail := next;
      }
      size := size + 1;
      spine := spine + [next];
    }

    method LinkFront(next: Node<T>)
      requires Threaded() && next !in spine && next.next == null
      modifies this`head, this`tail, this`size, this`spine, next`next
      ensures Threaded() && spine == [next] + old(spine)
      ensures ValuesOf(spine) == [next.value] + old(ValuesOf(spine))
    {
      assert forall i | 0 <= i < |spine| :: spine[i] in spine;
      if size > 0 {
        next.next := head;
        head := next;
      } else {
        head := next;
        tail := next;
      }
      size := size + 1;
      spine := [next] + spine;
    }

    method UnlinkFront() returns (node: Node<T>)
      requires Threaded() && size > 0
      modifies this`head, this`size, this`spine
      ensures Threaded() && old(spine) == [node] + spine && node !in spine
      ensures ValuesOf(spine) == old(ValuesOf(spine))[1..]
    {
      node := head;
      head := head.next;
      size := size - 1;
      spine := spine[1..];
      assert old(spine) == [node] + spine;
    }

    method EmplaceBack(value: T)
      requires Valid()
      modifies this, spine, pool
      ensures Valid() && Contents() == old(Contents()) + [value] && blockLimit == old(blockLimit)
      ensures Blocks() >= old(Blocks()) && fresh(Blocks() - old(Blocks()))
    {
      var next := Allocate(value);
      LinkBack(next);
    }

    method EmplaceFront(value: T)
      requires Valid()
      modifies this, pool
      ensures Valid() && Contents() == [value] + old(Contents()) && blockLimit == old(blockLimit)
      ensures Blocks() >= old(Blocks()) && fresh(Blocks() - old(Blocks()))
    {
      var next := Allocate(value);
      LinkFront(next);
    }

    method Pop()
      requires Valid() && size > 0
      modifies this
      ensures Valid() && Contents() == old(Contents())[1..] && blockLimit == old(blockLimit)
      ensures Blocks() == old(Blocks())
    {
      var node := UnlinkFront();
      TailApart(node, spine, pool, freed);
      ElementsSplit(node, spine, node);
      ElementsSplit(node, pool, node);
      Deallocate(node);
    }

    // The pointer work of concatenation.
    method Splice(rhs: List<T>)
      requires Threaded() && rhs.Threaded() && rhs != this && Apart(spine, rhs.spine)
      modifies this`head, this`tail, this`size, this`spine, rhs`head, rhs`tail, rhs`size, rhs`spine, spine
      ensures Threaded() && rhs.Threaded()
      ensures spine == old(spine) + old(rhs.spine) && rhs.spine == []
      ensures ValuesOf(spine) == old(ValuesOf(spine)) + old(ValuesOf(rhs.spine))
    {
      if rhs.size > 0 {
        if size > 0 {
          tail.next := rhs.head;
          tail := rhs.tail;
          size := size + rhs.size;
          rhs.head, rhs.tail, rhs.size := null, null, 0;
        } else {
          head, rhs.head := rhs.head, head;
          tail, rhs.tail := rhs.tail, tail;
          size, rhs.size := rhs.size, size;
        }
      }
      spine, rhs.spine := spine + rhs.spine, [];
    }

    /** Takes the nodes of `rhs` over in constant time; each list keeps its own pool. */
    method Concatenate(rhs: List<T>)
      requires Valid() && rhs.Valid() && rhs != this && Separate(rhs)
      modifies this, rhs, spine
      ensures Valid() && rhs.Valid() && Separate(rhs)
      ensures Contents() == old(Contents()) + old(rhs.Contents()) && rhs.Contents() == []
      ensures Blocks() + rhs.Blocks() == old(Blocks()) + old(rhs.Blocks())
      ensures pool == old(pool) && rhs.pool == old(rhs.pool)
      ensures blockLimit == old(blockLimit) && rhs.blockLimit == old(rhs.blockLimit)
    {
      Splice(rhs);
    }

    method SwapNodes(rhs: List<T>)
      requires Threaded() && rhs.Threaded() && rhs != this
      modifies this`head, this`tail, this`size, this`spine, rhs`head, rhs`tail, rhs`size, rhs`spine
      ensures Threaded() && rhs.Threaded()
      ensures spine == old(rhs.spine) && rhs.spine == old(spine)
    {
      head, rhs.head := rhs.head, head;
      tail, rhs.tail := rhs.tail, tail;
      size, rhs.size := rhs.size, size;
      spine, rhs.spine := rhs.spine, spine;
    }

    /** Move construction and move assignment exchange two lists, pools included. */
    method Move(rhs: List<T>)
      requires Valid() && rhs.Valid() && rhs != this
      modifies this, rhs
      ensures Valid() && rhs.Valid()
      ensures Contents() == old(rhs.Contents()) && rhs.Contents() == old(Contents())
      ensures Blocks() == old(rhs.Blocks()) && rhs.Blocks() == old(Blocks())
      ensures pool == old(rhs.pool) && rhs.pool == old(pool)
    {
      SwapNodes(rhs);
      blockLimit, rhs.blockLimit := rhs.blockLimit, blockLimit;
      pool, rhs.pool := rhs.pool, pool;
      freed, rhs.freed := rhs.freed, freed;
    }

    /** Copy assignment appends: the two lists end up equal exactly when the target was
        empty before. */
    method CopyAssign(rhs: List<T>)
      requires Valid() && rhs.Valid() && rhs != this && Separate(rhs)
      modifies this, Blocks()
      ensures Valid() && Contents() == old(Contents()) + rhs.Contents()
      ensures Contents() == rhs.Contents() <==> old(Contents()) == []
      ensures rhs.Valid() && rhs.Contents() == old(rhs.Contents()) && Separate(rhs)
      ensures Blocks() >= old(Blocks()) && fresh(Blocks() - old(Blocks()))
    {
      var node := rhs.head;
      ghost var n, source, values := 0, rhs.spine, rhs.Contents();
      while node != null
        invariant n <= |source| && node == if n < |source| then source[n] else null
        invariant Valid() && rhs.Valid() && Separate(rhs) && rhs.spine == source && rhs.Contents() == values
        invariant Contents() == old(Contents()) + values[..n]
        invariant Blocks() >= old(Blocks()) && fresh(Blocks() - old(Blocks()))
        decreases |source| - n
      {
        assert values[..n + 1] == values[..n] + [node.value];
        EmplaceBackBeside(node.value, rhs);
        node := node.next;
        n := n + 1;
      }
      assert values[..n] == values;
      assert |Contents()| == |old(Contents())| + |values|;
    }

    // Appending leaves a separate list alone.
    method EmplaceBackBeside(value: T, rhs: List<T>)
      requires Valid() && rhs.Valid() && rhs != this && Separate(rhs)
      modifies this, Blocks()
      ensures Valid() && Contents() == old(Contents()) + [value]
      ensures rhs.Valid() && rhs.Contents() == old(rhs.Contents()) && rhs.spine == old(rhs.spine) && Separate(rhs)
      ensures Blocks() >= old(Blocks()) && fresh(Blocks() - old(Blocks()))
    {
      SeparateBlocks(rhs);
      EmplaceBack(value);
      SeparateBlocks(rhs);
    }

    /** The destructor gives every block back: those of the nodes, then those of the pool. */
    method Destroy()
      requires Valid()
      modifies this
      ensures freed == old(Blocks())
    {
      var cur := head;
      ghost var n := 0;
      while cur != null
        invariant n <= |old(spine)| && cur == if n < |old(spine)| then old(spine)[n] else null
        invariant Linked(old(spine)) && Stocked()
        invariant Apart(old(spine)[n..], pool) && Outside(old(spine)[n..], freed)
        invariant Elements(pool) + freed
               == Elements(old(pool)) + old(freed) + (set i | 0 <= i < n :: old(spine)[i])
        decreases |old(spine)| - n
      {
        var node := cur;
        cur := cur.next;
        assert node == old(spine)[n..][0];
        Deallocate(node);
        n := n + 1;
      }
      DrainPool();
    }

    method DrainPool()
      modifies this`pool, this`freed
      ensures pool == [] && freed == old(freed) + Elements(old(pool))
    {
      while |pool| > 0
        invariant Elements(pool) + freed == old(freed) + Elements(old(pool))
        decreases |pool|
      {
        ghost var was := pool;
        freed := freed + {pool[|pool| - 1]};
        pool := pool[..|pool| - 1];
        assert was == pool + [was[|was| - 1]];
      }
    }
  }

  method Singleton(value: int) returns (list: List<int>)
    ensures fresh(list) && list.Valid() && list.Contents() == [value] && fresh(list.Blocks())
  {
    list := new List<int>(0);
    list.EmplaceBack(value);
  }

  /** Assigning a list of 2 to a list of 1 leaves the list 1, 2. */
  method CopyOntoNonempty() returns (target: List<int>, source: List<int>)
    ensures target.Contents() == [1, 2] && source.Contents() == [2]
  {
    target := Singleton(1);
    ghost var blocks := target.Blocks();
    source := Singleton(2);
    assert target.Blocks() == blocks && target.Contents() == [1];
    target.SeparateBlocks(source);
    target.CopyAssign(source);
  }
}
