/** Any number of separate lists, and any sequence of operations on them: the lists behave as
    independent sequences, and no block is ever in two of them. */
module ListRuns {
  import opened NodeList

  datatype Command<T> =
    | PushBack(i: nat, v: T)
    | PushFront(i: nat, v: T)
    | Pop(i: nat)
    | Concatenate(i: nat, j: nat)
    | Move(i: nat, j: nat)
    | Copy(i: nat, j: nat)

  // Whether a command is about two lists.
  predicate Two<T>(c: Command<T>) {
    c.Concatenate? || c.Move? || c.Copy?
  }

  // What callers owe: lists that exist, two different ones, and no pop of nothing.
  predicate Allowed<T>(c: Command<T>, state: seq<seq<T>>) {
    && c.i < |state|
    && (c.Pop? ==> state[c.i] != [])
    && (Two(c) ==> c.j < |state| && c.i != c.j)
  }

  // What a command makes of the list it is about, and of the other one.
  function First<T>(c: Command<T>, mine: seq<T>, other: seq<T>): seq<T>
    requires c.Pop? ==> mine != []
  {
    match c
    case PushBack(_, v) => mine + [v]
    case PushFront(_, v) => [v] + mine
    case Pop(_) => mine[1..]
    case Concatenate(_, _) => mine + other
    case Move(_, _) => other
    case Copy(_, _) => mine + other
  }

  function Second<T>(c: Command<T>, mine: seq<T>, other: seq<T>): seq<T> {
    if c.Concatenate? then [] else if c.Move? then mine else other
  }

  function Apply<T>(state: seq<seq<T>>, c: Command<T>): (after: seq<seq<T>>)
    requires Allowed(c, state)
    ensures |after| == |state|
  {
    if Two(c) then
      state[c.i := First(c, state[c.i], state[c.j])][c.j := Second(c, state[c.i], state[c.j])]
    else state[c.i := First(c, state[c.i], [])]
  }

  predicate AllAllowed<T>(script: seq<Command<T>>, state: seq<seq<T>>)
    decreases |script|
  {
    script == [] || (Allowed(script[0], state) && AllAllowed(script[1..], Apply(state, script[0])))
  }

  function ApplyAll<T>(state: seq<seq<T>>, script: seq<Command<T>>): seq<seq<T>>
    requires AllAllowed(script, state)
    decreases |script|
  {
    if script == [] then state else ApplyAll(Apply(state, script[0]), script[1..])
  }

  // The nodes that the lists are made of, and the blocks that they are responsible for.
  ghost function Nodes<T>(lists: seq<List<T>>): set<Node<T>>
    reads lists
  {
    set i, k | 0 <= i < |lists| && 0 <= k < |lists[i].spine| :: lists[i].spine[k]
  }

  ghost function BlocksOf<T>(lists: seq<List<T>>): (blocks: seq<set<Node<T>>>)
    reads lists
    ensures |blocks| == |lists| && forall i | 0 <= i < |lists| :: blocks[i] == lists[i].Blocks()
  {
    seq(|lists|, i requires 0 <= i < |lists| reads lists => lists[i].Blocks())
  }

  ghost function Union<T>(blocks: seq<set<Node<T>>>): set<Node<T>> {
    set i, n | 0 <= i < |blocks| && n in blocks[i] :: n
  }

  ghost predicate Disjoint<T>(blocks: seq<set<Node<T>>>) {
    forall i, j | 0 <= i < |blocks| && 0 <= j < |blocks| && i != j :: blocks[i] !! blocks[j]
  }

  ghost predicate Different<T>(lists: seq<List<T>>) {
    forall i, j | 0 <= i < |lists| && 0 <= j < |lists| && i != j :: lists[i] != lists[j]
  }

  ghost predicate AllValid<T>(lists: seq<List<T>>)
    reads lists, Nodes(lists)
  {
    forall i | 0 <= i < |lists| :: lists[i].Valid()
  }

  ghost predicate Separated<T>(lists: seq<List<T>>)
    reads lists, Nodes(lists)
  {
    AllValid(lists) && Different(lists) && Disjoint(BlocksOf(lists))
  }

  ghost function State<T>(lists: seq<List<T>>): (state: seq<seq<T>>)
    reads lists, Nodes(lists)
    ensures |state| == |lists| && forall i | 0 <= i < |lists| :: state[i] == lists[i].Contents()
  {
    seq(|lists|, i requires 0 <= i < |lists| reads lists, Nodes(lists) => lists[i].Contents())
  }

  method PerformOne<T>(a: List<T>, c: Command<T>)
    requires a.Valid() && !Two(c) && (c.Pop? ==> a.Contents() != [])
    modifies a, a.Blocks()
    ensures a.Valid() && a.Contents() == First(c, old(a.Contents()), [])
    ensures a.Blocks() >= old(a.Blocks()) && fresh(a.Blocks() - old(a.Blocks()))
  {
    match c {
      case PushBack(_, v) => a.EmplaceBack(v);
      case PushFront(_, v) => a.EmplaceFront(v);
      case Pop(_) => a.Pop();
    }
  }

  method PerformTwo<T>(a: List<T>, b: List<T>, c: Command<T>)
    requires a.Valid() && b.Valid() && a != b && a.Blocks() !! b.Blocks() && Two(c)
    modifies a, b, a.Blocks()
    ensures a.Valid() && a.Contents() == First(c, old(a.Contents()), old(b.Contents()))
    ensures b.Valid() && b.Contents() == Second(c, old(a.Contents()), old(b.Contents()))
    ensures a.Blocks() !! b.Blocks() && a.Blocks() + b.Blocks() >= old(a.Blocks() + b.Blocks())
    ensures fresh(a.Blocks() + b.Blocks() - old(a.Blocks() + b.Blocks()))
  {
    a.SeparateBlocks(b);
    match c {
      case Concatenate(_, _) => a.Concatenate(b);
      case Move(_, _) => a.Move(b);
      case Copy(_, _) => a.CopyAssign(b);
    }
    a.SeparateBlocks(b);
  }

  method StepOne<T>(lists: seq<List<T>>, c: Command<T>)
    requires Separated(lists) && Allowed(c, State(lists)) && !Two(c)
    modifies lists[c.i], lists[c.i].Blocks()
    ensures AllValid(lists) && State(lists) == Apply(old(State(lists)), c)
    ensures forall k | 0 <= k < |lists| && k != c.i :: lists[k].Blocks() == old(lists[k].Blocks())
    ensures lists[c.i].Blocks() >= old(lists[c.i].Blocks()) && fresh(lists[c.i].Blocks() - old(lists[c.i].Blocks()))
  {
    ghost var blocks := BlocksOf(lists);
    assert forall k | 0 <= k < |lists| && k != c.i :: lists[k] != lists[c.i] && blocks[k] !! blocks[c.i];
    PerformOne(lists[c.i], c);
  }

  method StepTwo<T>(lists: seq<List<T>>, c: Command<T>)
    requires Separated(lists) && Allowed(c, State(lists)) && Two(c)
    modifies lists[c.i], lists[c.j], lists[c.i].Blocks()
    ensures lists[c.i].Valid() && lists[c.j].Valid() && lists[c.i].Blocks() !! lists[c.j].Blocks()
    ensures lists[c.i].Contents() == First(c, old(lists[c.i].Contents()), old(lists[c.j].Contents()))
    ensures lists[c.j].Contents() == Second(c, old(lists[c.i].Contents()), old(lists[c.j].Contents()))
    ensures forall k | 0 <= k < |lists| && k != c.i && k != c.j ::
      lists[k].Valid() && lists[k].Blocks() == old(lists[k].Blocks()) && lists[k].Contents() == old(lists[k].Contents())
    ensures lists[c.i].Blocks() + lists[c.j].Blocks() >= old(lists[c.i].Blocks() + lists[c.j].Blocks())
    ensures fresh(lists[c.i].Blocks() + lists[c.j].Blocks() - old(lists[c.i].Blocks() + lists[c.j].Blocks()))
  {
    ghost var blocks := BlocksOf(lists);
    assert forall k | 0 <= k < |lists| && k != c.i :: lists[k] != lists[c.i] && blocks[k] !! blocks[c.i];
    assert forall k | 0 <= k < |lists| && k != c.j :: lists[k] != lists[c.j];
    PerformTwo(lists[c.i], lists[c.j], c);
  }

  method StepPair<T>(lists: seq<List<T>>, c: Command<T>)
    requires Separated(lists) && Allowed(c, State(lists)) && Two(c)
    modifies lists[c.i], lists[c.j], lists[c.i].Blocks()
    ensures AllValid(lists) && State(lists) == Apply(old(State(lists)), c)
    ensures forall k | 0 <= k < |lists| && k != c.i && k != c.j :: lists[k].Blocks() == old(lists[k].Blocks())
    ensures lists[c.i].Blocks() !! lists[c.j].Blocks()
    ensures lists[c.i].Blocks() + lists[c.j].Blocks() >= old(lists[c.i].Blocks() + lists[c.j].Blocks())
    ensures fresh(lists[c.i].Blocks() + lists[c.j].Blocks() - old(lists[c.i].Blocks() + lists[c.j].Blocks()))
  {
    ghost var state := State(lists);
    StepTwo(lists, c);
    assert State(lists) == Apply(state, c);
  }

  // Disjoint blocks stay so when the blocks at `i` and `j` change among themselves and get
  // new ones, which were in no list.
  lemma StaysDisjoint<T>(before: seq<set<Node<T>>>, after: seq<set<Node<T>>>, i: nat, j: nat)
    requires |before| == |after| && i < |before| && j < |before| && Disjoint(before)
    requires forall k | 0 <= k < |before| && k != i && k != j :: after[k] == before[k]
    requires i != j ==> after[i] !! after[j]
    requires forall n | n in after[i] || n in after[j] :: n in before[i] || n in before[j] || n !in Union(before)
    ensures Disjoint(after)
  {
    assert forall k | 0 <= k < |before| :: before[k] <= Union(before);
  }

  lemma UnionGrows<T>(before: seq<set<Node<T>>>, after: seq<set<Node<T>>>, i: nat, j: nat)
    requires |before| == |after| && i < |before| && j < |before|
    requires forall k | 0 <= k < |before| && k != i && k != j :: after[k] == before[k]
    requires after[i] + after[j] >= before[i] + before[j]
    ensures Union(after) >= Union(before)
    ensures Union(after) - Union(before) <= after[i] + after[j] - (before[i] + before[j])
  {
  }

  method Step<T>(lists: seq<List<T>>, c: Command<T>)
    requires Separated(lists) && Allowed(c, State(lists))
    modifies lists, Union(BlocksOf(lists))
    ensures Separated(lists) && State(lists) == Apply(old(State(lists)), c)
    ensures Union(BlocksOf(lists)) >= old(Union(BlocksOf(lists)))
    ensures fresh(Union(BlocksOf(lists)) - old(Union(BlocksOf(lists))))
  {
    ghost var before := BlocksOf(lists);
    ghost var j := if Two(c) then c.j else c.i;
    assert before[c.i] <= Union(before) && before[j] <= Union(before);
    if Two(c) {
      StepPair(lists, c);
    } else {
      StepOne(lists, c);
    }
    StaysDisjoint(before, BlocksOf(lists), c.i, j);
    UnionGrows(before, BlocksOf(lists), c.i, j);
  }

  /** Any sequence of operations on any number of separate lists: each list ends up with the
      elements that the same operations give on sequences, and the lists are separate. */
  method Execute<T>(lists: seq<List<T>>, script: seq<Command<T>>)
    requires Separated(lists) && AllAllowed(script, State(lists))
    modifies lists, Union(BlocksOf(lists))
    ensures Separated(lists) && State(lists) == ApplyAll(old(State(lists)), script)
    decreases |script|
  {
    if script != [] {
      Step(lists, script[0]);
      Execute(lists, script[1..]);
    }
  }
}
