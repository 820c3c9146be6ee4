/** Maximum bipartite matching as the vendored googlemock computes it: one
    depth-first augmentation attempt per left node, over two mutually referent
    index vectors.

    The maximality proof keeps a ghost set of "dead" right nodes.  A failed search
    leaves behind a region that no later search can escape from; the region and
    the live left nodes together cover every edge with as many nodes as there are
    matched pairs, so no matching can be larger. */
module Matching {

  // The value of a vector slot that holds no partner (the source's kUnused).
  const UNUSED: int := -1

  datatype Graph = Graph(lhs: nat, rhs: nat, edges: set<(int, int)>) {
    predicate HasEdge(l: int, r: int) {
      0 <= l < lhs && 0 <= r < rhs && (l, r) in edges
    }
  }

  type Pairs = seq<(int, int)>

  /** A set of edges of `g` in which no left node and no right node occurs twice. */
  ghost predicate IsMatching(g: Graph, m: set<(int, int)>) {
    && (forall e | e in m :: g.HasEdge(e.0, e.1))
    && (forall e, f | e in m && f in m && e.0 == f.0 :: e == f)
    && (forall e, f | e in m && f in m && e.1 == f.1 :: e == f)
  }

  /** A path that alternates between edges outside and inside the matching, from the
      left node `l` to a free right node; `path` lists its right nodes. */
  ghost predicate AugmentingPath(g: Graph, right: seq<int>, l: int, path: seq<int>)
    requires |right| == g.rhs
    decreases |path|
  {
    && path != []
    && g.HasEdge(l, path[0])
    && if |path| == 1 then right[path[0]] == UNUSED
       else right[path[0]] != UNUSED && AugmentingPath(g, right, right[path[0]], path[1..])
  }

  ghost predicate HasAugmentingPath(g: Graph, right: seq<int>, l: int)
    requires |right| == g.rhs
  {
    exists path :: AugmentingPath(g, right, l, path)
  }

  // ---- The invariant of the two vectors ----

  ghost predicate Sized(g: Graph, left: seq<int>, right: seq<int>) {
    && |left| == g.lhs && |right| == g.rhs
    && (forall l | 0 <= l < g.lhs :: left[l] == UNUSED || g.HasEdge(l, left[l]))
    && (forall r | 0 <= r < g.rhs :: right[r] == UNUSED || 0 <= right[r] < g.lhs)
  }

  ghost predicate Mutual(g: Graph, left: seq<int>, right: seq<int>) {
    && Sized(g, left, right)
    && (forall l | 0 <= l < g.lhs && left[l] != UNUSED :: right[left[l]] == l)
    && (forall r | 0 <= r < g.rhs && right[r] != UNUSED :: left[right[r]] == r)
  }

  /** Left nodes a search cannot succeed from: those below `tried` that were tried and
      stayed unmatched, and the partners of dead right nodes. */
  ghost predicate DeadLeft(g: Graph, left: seq<int>, tried: int, dead: set<int>, l: int)
    requires |left| == g.lhs
  {
    && 0 <= l < g.lhs
    && if left[l] == UNUSED then l < tried else left[l] in dead
  }

  /** Every dead right node is matched, and dead left nodes only lead to dead right nodes. */
  ghost predicate DeadRegion(g: Graph, left: seq<int>, right: seq<int>, tried: int, dead: set<int>)
    requires |left| == g.lhs && |right| == g.rhs
  {
    && (forall r | r in dead :: 0 <= r < g.rhs && right[r] != UNUSED)
    && (forall l, r | DeadLeft(g, left, tried, dead, l) && g.HasEdge(l, r) :: r in dead)
  }

  /** The two vectors after every edge of `path` changed sides, `l` coming first. */
  ghost function FlipRight(right: seq<int>, l: int, path: seq<int>): (r: seq<int>)
    ensures |r| == |right|
    decreases |path|
  {
    if path == [] || !(0 <= path[0] < |right|) then right
    else FlipRight(right, right[path[0]], path[1..])[path[0] := l]
  }

  ghost function FlipLeft(left: seq<int>, right: seq<int>, l: int, path: seq<int>): (r: seq<int>)
    ensures |r| == |left|
    decreases |path|
  {
    if path == [] || !(0 <= path[0] < |right|) || !(0 <= l < |left|) then left
    else FlipLeft(left, right, right[path[0]], path[1..])[l := path[0]]
  }

  ghost predicate Distinct(path: seq<int>) {
    forall i, j | 0 <= i < j < |path| :: path[i] != path[j]
  }

  /** The vectors after a flip along `path` from `l`.  The right node that `l` was linked
      to before, if any, still refers to `l`; whoever took it over re-links it. */
  ghost predicate Augmented(g: Graph, l: int, left: seq<int>, right: seq<int>,
                            left': seq<int>, right': seq<int>, path: seq<int>)
    requires Sized(g, left, right) && 0 <= l < g.lhs
  {
    && Sized(g, left', right')
    && left'[l] != UNUSED && left'[l] in path
    && (forall k | 0 <= k < g.lhs && k != l :: left'[k] == UNUSED <==> left[k] == UNUSED)
    && (forall k | 0 <= k < g.lhs && left'[k] != UNUSED :: right'[left'[k]] == k)
    && (forall r | 0 <= r < g.rhs && right'[r] != UNUSED && r != left[l] :: left'[right'[r]] == r)
    && (forall r | 0 <= r < g.rhs && r !in path :: right'[r] == right[r])
  }

  /** Linking `l` to `r` completes a path that `r` ends, or one found from the left node
      that `r` was linked to. */
  lemma Relink(g: Graph, l: int, r: int, left: seq<int>, right: seq<int>,
               left1: seq<int>, right1: seq<int>, tail: seq<int>)
    requires Mutual(g, left, right) && g.HasEdge(l, r) && r !in tail
    requires left[l] == UNUSED || (left[l] != r && left[l] !in tail)
    requires if right[r] == UNUSED then left1 == left && right1 == right
             else Augmented(g, right[r], left, right, left1, right1, tail)
    ensures Augmented(g, l, left, right, left1[l := r], right1[r := l], [r] + tail)
  {
  }

  /** Flipping a simple augmenting path matches one more left node and no fewer. */
  lemma {:induction false} FlipAugments(g: Graph, l: int, left: seq<int>, right: seq<int>, path: seq<int>)
    requires Mutual(g, left, right) && AugmentingPath(g, right, l, path) && Distinct(path)
    requires left[l] == UNUSED || left[l] !in path
    ensures Augmented(g, l, left, right, FlipLeft(left, right, l, path), FlipRight(right, l, path), path)
    decreases |path|
  {
    var r, tail := path[0], path[1..];
    assert path == [r] + tail;
    if |path| == 1 {
      Relink(g, l, r, left, right, left, right, tail);
    } else {
      FlipAugments(g, right[r], left, right, tail);
      Relink(g, l, r, left, right, FlipLeft(left, right, right[r], tail), FlipRight(right, right[r], tail), tail);
    }
  }

  /** No augmenting path starts in the dead region or passes through it. */
  lemma {:induction false} PathAvoidsDead(g: Graph, left: seq<int>, right: seq<int>, tried: int, dead: set<int>,
                                         l: int, path: seq<int>)
    requires Mutual(g, left, right) && DeadRegion(g, left, right, tried, dead)
    requires AugmentingPath(g, right, l, path)
    ensures !DeadLeft(g, left, tried, dead, l)
    ensures forall r | r in path :: r !in dead
    decreases |path|
  {
    if |path| > 1 {
      PathAvoidsDead(g, left, right, tried, dead, right[path[0]], path[1..]);
      assert path == [path[0]] + path[1..];
    }
  }

  /** What a failed search from `l` has explored: everything reachable is marked, and
      everything newly marked is matched. */
  ghost predicate Explored(g: Graph, l: int, right: seq<int>, seen: seq<bool>, seen': seq<bool>)
    requires |right| == g.rhs && |seen| == g.rhs && |seen'| == g.rhs
  {
    && (forall r | g.HasEdge(l, r) :: seen'[r])
    && Closed(g, right, seen, seen')
  }

  ghost predicate Closed(g: Graph, right: seq<int>, seen: seq<bool>, seen': seq<bool>)
    requires |right| == g.rhs && |seen| == g.rhs && |seen'| == g.rhs
  {
    forall r | 0 <= r < g.rhs && seen'[r] && !seen[r] ::
      right[r] != UNUSED && forall q | g.HasEdge(right[r], q) :: seen'[q]
  }

  ghost function Unseen(seen: seq<bool>): nat {
    if seen == [] then 0 else (if seen[0] then 0 else 1) + Unseen(seen[1..])
  }

  lemma UnseenMonotone(a: seq<bool>, b: seq<bool>)
    requires |a| == |b| && forall i | 0 <= i < |a| :: a[i] ==> b[i]
    ensures Unseen(b) <= Unseen(a)
    ensures (exists i | 0 <= i < |a| :: b[i] && !a[i]) ==> Unseen(b) < Unseen(a)
  {
    if a == [] {
    } else {
      assert forall i | 0 <= i < |a[1..]| :: a[1..][i] == a[i + 1] && b[1..][i] == b[i + 1];
      UnseenMonotone(a[1..], b[1..]);
      if i :| 0 <= i < |a| && b[i] && !a[i] {
        if i > 0 { assert b[1..][i - 1] && !a[1..][i - 1]; }
      }
    }
  }

  /** A fully explored region without a free right node holds no augmenting path. */
  lemma {:induction false} ExploredHasNoPath(g: Graph, l: int, right: seq<int>,
                                            seen: seq<bool>, seen': seq<bool>, path: seq<int>)
    requires |right| == g.rhs && |seen| == g.rhs && |seen'| == g.rhs
    requires forall r | 0 <= r < g.rhs :: !seen[r]
    requires Explored(g, l, right, seen, seen')
    ensures !AugmentingPath(g, right, l, path)
    decreases |path|
  {
    if AugmentingPath(g, right, l, path) && |path| > 1 {
      ExploredHasNoPath(g, right[path[0]], right, seen, seen', path[1..]);
    }
  }

  /** A path from the partner of `r` extends to one through the edge from `l` to `r`. */
  lemma PathGrows(g: Graph, left: seq<int>, right: seq<int>, l: int, r: int, tail: seq<int>)
    requires |right| == g.rhs && 0 <= r < g.rhs && 0 <= l < |left| && g.HasEdge(l, r)
    requires if right[r] == UNUSED then tail == [] else AugmentingPath(g, right, right[r], tail)
    requires Distinct(tail) && r !in tail
    ensures AugmentingPath(g, right, l, [r] + tail) && HasAugmentingPath(g, right, l) && Distinct([r] + tail)
    ensures FlipLeft(left, right, l, [r] + tail) == FlipLeft(left, right, right[r], tail)[l := r]
    ensures FlipRight(right, l, [r] + tail) == FlipRight(right, right[r], tail)[r := l]
  {
    var path := [r] + tail;
    assert path[1..] == tail;
    assert AugmentingPath(g, right, l, path);
    assert forall j | 0 < j < |path| :: path[j] == tail[j - 1] && tail[j - 1] in tail;
  }

  class MaxBipartiteMatchState {
    const graph: Graph
    var left: seq<int>
    var right: seq<int>

    constructor (graph: Graph)
      ensures this.graph == graph
      ensures |left| == graph.lhs && forall l | 0 <= l < graph.lhs :: left[l] == UNUSED
      ensures |right| == graph.rhs && forall r | 0 <= r < graph.rhs :: right[r] == UNUSED
    {
      this.graph := graph;
      left := seq(graph.lhs, _ => UNUSED);
      right := seq(graph.rhs, _ => UNUSED);
    }

    /** Searches for an augmenting path from `ilhs` over the right nodes not yet `seen`,
        and flips it when there is one. */
    method TryAugment(ilhs: int, seen: seq<bool>)
      returns (ok: bool, seen': seq<bool>, ghost path: seq<int>)
      requires Mutual(graph, left, right) && 0 <= ilhs < graph.lhs && |seen| == graph.rhs
      modifies this`left, this`right
      ensures |seen'| == graph.rhs && forall r | 0 <= r < graph.rhs && seen[r] :: seen'[r]
      ensures !ok ==> left == old(left) && right == old(right)
      ensures !ok ==> Explored(graph, ilhs, right, seen, seen')
      ensures ok ==> AugmentingPath(graph, old(right), ilhs, path) && Distinct(path)
      ensures ok ==> forall r | r in path :: 0 <= r < graph.rhs && !seen[r]
      ensures ok ==> left == FlipLeft(old(left), old(right), ilhs, path)
      ensures ok ==> right == FlipRight(old(right), ilhs, path)
      ensures (forall r | 0 <= r < graph.rhs :: !seen[r]) ==>
                (ok <==> HasAugmentingPath(graph, old(right), ilhs))
      decreases Unseen(seen)
    {
      seen' := seen;
      ok, path := false, [];
      var irhs := 0;
      while irhs < graph.rhs
        invariant 0 <= irhs <= graph.rhs && |seen'| == graph.rhs
        invariant left == old(left) && right == old(right)
        invariant forall r | 0 <= r < graph.rhs && seen[r] :: seen'[r]
        invariant forall r | 0 <= r < irhs && graph.HasEdge(ilhs, r) :: seen'[r]
        invariant Closed(graph, right, seen, seen')
      {
        if !seen'[irhs] && graph.HasEdge(ilhs, irhs) {
          ghost var before := seen';
          seen' := seen'[irhs := true];
          var found := right[irhs] == UNUSED;
          ghost var tail := [];
          if !found {
            UnseenMonotone(seen, before);
            UnseenMonotone(before, seen');
            found, seen', tail := TryAugment(right[irhs], seen');
          }
          if found {
            path := [irhs] + tail;
            PathGrows(graph, old(left), old(right), ilhs, irhs, tail);
            left := left[ilhs := irhs];
            right := right[irhs := ilhs];
            return true, seen', path;
          }
        }
        irhs := irhs + 1;
      }
      if forall r | 0 <= r < graph.rhs :: !seen[r] {
        forall p ensures !AugmentingPath(graph, right, ilhs, p) {
          ExploredHasNoPath(graph, ilhs, right, seen, seen', p);
        }
      }
    }

    /** Pairs up as many left nodes with right nodes as any matching of the graph can. */
    method Compute() returns (result: Pairs)
      requires |left| == graph.lhs && forall l | 0 <= l < graph.lhs :: left[l] == UNUSED
      requires |right| == graph.rhs && forall r | 0 <= r < graph.rhs :: right[r] == UNUSED
      modifies this`left, this`right
      ensures Mutual(graph, left, right)
      ensures forall i, j | 0 <= i < j < |result| :: result[i].0 < result[j].0
      ensures IsMatching(graph, PairSet(result)) && |PairSet(result)| == |result|
      ensures forall m | IsMatching(graph, m) :: |m| <= |result|
      ensures forall l | 0 <= l < graph.lhs && left[l] == UNUSED :: !HasAugmentingPath(graph, right, l)
    {
      ghost var dead: set<int> := {};
      for ilhs := 0 to graph.lhs
        invariant Mutual(graph, left, right)
        invariant forall l | ilhs <= l < graph.lhs :: left[l] == UNUSED
        invariant DeadRegion(graph, left, right, ilhs, dead)
      {
        var seen := seq(graph.rhs, _ => false);
        ghost var left0, right0 := left, right;
        var ok, seen', path := TryAugment(ilhs, seen);
        if ok {
          SuccessKeepsDead(graph, ilhs, left0, right0, path, dead);
        } else {
          dead := FailureExtendsDead(graph, ilhs, left, right, seen, seen', dead);
        }
      }
      result := [];
      for ilhs := 0 to |left|
        invariant PairsOf(left, ilhs, result)
      {
        if left[ilhs] != UNUSED {
          result := result + [(ilhs, left[ilhs])];
        }
      }
      PairsFormMatching(graph, left, right, result);
      forall l | 0 <= l < graph.lhs && left[l] == UNUSED ensures !HasAugmentingPath(graph, right, l) {
        FailedStaysFailed(graph, left, right, graph.lhs, dead, l);
      }
      forall m | IsMatching(graph, m) ensures |m| <= |result| {
        CoverBoundsMatching(graph, left, right, dead, m);
      }
    }
  }

  ghost function PairSet(result: Pairs): set<(int, int)> {
    set p | p in result
  }

  ghost function MatchedLefts(left: seq<int>): set<int> {
    set l | 0 <= l < |left| && left[l] != UNUSED
  }

  /** `result` lists the matched nodes among the first `n` left nodes, in order. */
  ghost predicate PairsOf(left: seq<int>, n: int, result: Pairs)
    requires 0 <= n <= |left|
  {
    && (forall p | p in result :: 0 <= p.0 < n && left[p.0] != UNUSED && p.1 == left[p.0])
    && (forall l | 0 <= l < n && left[l] != UNUSED :: (l, left[l]) in result)
    && (forall i, j | 0 <= i < j < |result| :: result[i].0 < result[j].0)
  }

  /** A successful search matches its start and leaves the dead region as it was. */
  lemma SuccessKeepsDead(g: Graph, l: int, left: seq<int>, right: seq<int>, path: seq<int>, dead: set<int>)
    requires Mutual(g, left, right) && 0 <= l < g.lhs && left[l] == UNUSED
    requires DeadRegion(g, left, right, l, dead)
    requires AugmentingPath(g, right, l, path) && Distinct(path)
    ensures var left', right' := FlipLeft(left, right, l, path), FlipRight(right, l, path);
            && Mutual(g, left', right') && left'[l] != UNUSED
            && (forall k | 0 <= k < g.lhs && k != l :: left'[k] == UNUSED <==> left[k] == UNUSED)
            && DeadRegion(g, left', right', l + 1, dead)
  {
    var left', right' := FlipLeft(left, right, l, path), FlipRight(right, l, path);
    FlipAugments(g, l, left, right, path);
    PathAvoidsDead(g, left, right, l, dead, l, path);
    forall k, r | DeadLeft(g, left', l + 1, dead, k) && g.HasEdge(k, r) ensures r in dead {
      assert DeadLeft(g, left, l, dead, k);
    }
  }

  /** A failed search adds everything it marked to the dead region. */
  lemma FailureExtendsDead(g: Graph, l: int, left: seq<int>, right: seq<int>,
                           seen: seq<bool>, seen': seq<bool>, dead: set<int>)
    returns (dead': set<int>)
    requires Mutual(g, left, right) && 0 <= l < g.lhs && left[l] == UNUSED
    requires |seen| == g.rhs && |seen'| == g.rhs && forall r | 0 <= r < g.rhs :: !seen[r]
    requires DeadRegion(g, left, right, l, dead)
    requires Explored(g, l, right, seen, seen')
    ensures DeadRegion(g, left, right, l + 1, dead')
  {
    dead' := dead + set r | 0 <= r < g.rhs && seen'[r];
    forall k, r | DeadLeft(g, left, l + 1, dead', k) && g.HasEdge(k, r) ensures r in dead' {
      if k != l && !DeadLeft(g, left, l, dead, k) {
        assert seen'[left[k]] && right[left[k]] == k;
      }
    }
  }

  /** A left node that failed once stays out of reach for as long as the search goes on: in any
      state with a dead region that covers it, no augmenting path starts from it. */
  lemma FailedStaysFailed(g: Graph, left: seq<int>, right: seq<int>, tried: int, dead: set<int>, l: int)
    requires Mutual(g, left, right) && DeadRegion(g, left, right, tried, dead)
    requires 0 <= l < g.lhs && l < tried && left[l] == UNUSED
    ensures !HasAugmentingPath(g, right, l)
  {
    forall path ensures !AugmentingPath(g, right, l, path) {
      if AugmentingPath(g, right, l, path) {
        PathAvoidsDead(g, left, right, tried, dead, l, path);
      }
    }
  }

  lemma PairsFormMatching(g: Graph, left: seq<int>, right: seq<int>, result: Pairs)
    requires Mutual(g, left, right) && PairsOf(left, |left|, result)
    ensures IsMatching(g, PairSet(result))
    ensures |PairSet(result)| == |result| && |MatchedLefts(left)| == |result|
  {
    var m := PairSet(result);
    forall e, f | e in m && f in m && e.1 == f.1 ensures e == f {
      assert right[left[e.0]] == e.0 && right[left[f.0]] == f.0;
    }
    DistinctSize(result);
    var first := map e | e in m :: e.0;
    InjectionBound(m, first, MatchedLefts(left));
    var pair := map l | l in MatchedLefts(left) :: (l, left[l]);
    InjectionBound(MatchedLefts(left), pair, m);
  }

  lemma DistinctSize<T>(s: seq<T>)
    requires forall i, j | 0 <= i < j < |s| :: s[i] != s[j]
    ensures |set x | x in s| == |s|
  {
    if s == [] {
      assert (set x | x in s) == {};
    } else {
      var t := s[..|s| - 1];
      DistinctSize(t);
      assert (set x | x in s) == (set x | x in t) + {s[|s| - 1]};
      assert s[|s| - 1] !in t;
    }
  }

  /** A set that maps injectively into `bound` is no larger than `bound`. */
  lemma {:induction false} InjectionBound<A, B>(domain: set<A>, f: map<A, B>, bound: set<B>)
    requires f.Keys == domain
    requires forall x | x in domain :: f[x] in bound
    requires forall x, y | x in domain && y in domain && f[x] == f[y] :: x == y
    ensures |domain| <= |bound|
  {
    if domain != {} {
      var x :| x in domain;
      InjectionBound(domain - {x}, f - {x}, bound - {f[x]});
    }
  }

  /** The live matched left nodes and the dead right nodes cover every edge, and there
      are as many of them as matched left nodes: no matching is larger. */
  lemma CoverBoundsMatching(g: Graph, left: seq<int>, right: seq<int>, dead: set<int>, m: set<(int, int)>)
    requires Mutual(g, left, right) && DeadRegion(g, left, right, g.lhs, dead)
    requires IsMatching(g, m)
    ensures |m| <= |MatchedLefts(left)|
  {
    var cover := map e | e in m :: if e.1 in dead then right[e.1] else e.0;
    forall e | e in m ensures cover[e] in MatchedLefts(left) {
      assert g.HasEdge(e.0, e.1);
      if e.1 !in dead {
        assert !DeadLeft(g, left, g.lhs, dead, e.0);
      }
    }
    forall e, f | e in m && f in m && cover[e] == cover[f] ensures e == f {
      assert g.HasEdge(e.0, e.1) && g.HasEdge(f.0, f.1);
      assert e.1 in dead ==> left[cover[e]] == e.1;
      assert f.1 in dead ==> left[cover[f]] == f.1;
      assert e.1 in dead <==> f.1 in dead by {
        assert e.1 in dead ==> DeadLeft(g, left, g.lhs, dead, cover[e]);
        assert f.1 in dead ==> DeadLeft(g, left, g.lhs, dead, cover[f]);
      }
    }
    InjectionBound(m, cover, MatchedLefts(left));
  }

  /** The whole search, as the library calls it. */
  method FindMaxBipartiteMatching(g: Graph) returns (result: Pairs)
    ensures forall i, j | 0 <= i < j < |result| :: result[i].0 < result[j].0
    ensures IsMatching(g, PairSet(result)) && |PairSet(result)| == |result|
    ensures forall m | IsMatching(g, m) :: |m| <= |result|
  {
    var state := new MaxBipartiteMatchState(g);
    result := state.Compute();
  }
}
