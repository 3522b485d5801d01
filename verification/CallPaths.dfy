/** `callchain`: every simple call path of up to eight calls, found by a bounded depth-first search. */
module CallPaths {
  import opened Collections
  import opened Reachability
  import opened CodeGraph

  const MAX_PATHS := 32

  /** The number of paths asked for, but at least one and at most 32. */
  function ClampPaths(n: nat): (cap: nat)
    ensures 1 <= n <= 32 ==> cap == n
    ensures n < 1 ==> cap == 1
    ensures n > 32 ==> cap == 32
  {
    if n < 1 then 1 else Min(n, MAX_PATHS)
  }

  type Path = seq<Id>

  /** A call path without repeats that ends at a target, meets none on the way, and has one to eight calls. */
  ghost predicate CallPath(adj: Adj<Id>, targets: set<Id>, p: Path) {
    && Walk(adj, p) && Distinct(p)
    && 2 <= |p| <= MAX_HOPS + 1
    && p[|p| - 1] in targets
    && forall i | 0 < i < |p| - 1 :: p[i] !in targets
  }

  // ---- the search without a cap on its output ----

  /** The paths that the search reports below `stack`, in its order. */
  function PathsFrom(adj: Adj<Id>, targets: set<Id>, stack: Path): seq<Path>
    requires 1 <= |stack| <= MAX_HOPS + 1
    decreases MAX_HOPS + 1 - |stack|, 1, 0
  {
    var node := stack[|stack| - 1];
    if node in targets && |stack| > 1 then [stack]
    else if |stack| > MAX_HOPS then []
    else Extensions(adj, targets, stack, Succ(adj, node))
  }

  function Extensions(adj: Adj<Id>, targets: set<Id>, stack: Path, next: seq<Id>): seq<Path>
    requires 1 <= |stack| <= MAX_HOPS
    decreases MAX_HOPS + 1 - |stack|, 0, |next|
  {
    if |next| == 0 then []
    else
      (if next[0] in stack then [] else PathsFrom(adj, targets, stack + [next[0]]))
        + Extensions(adj, targets, stack, next[1..])
  }

  function AllFrom(adj: Adj<Id>, targets: set<Id>, sources: seq<Id>): seq<Path> {
    if |sources| == 0 then [] else PathsFrom(adj, targets, [sources[0]]) + AllFrom(adj, targets, sources[1..])
  }

  // ---- the search itself ----

  function Take(s: seq<Path>, n: nat): (r: seq<Path>)
    ensures |r| <= n
  {
    if |s| <= n then s else s[..n]
  }

  lemma TakeThen(a: seq<Path>, b: seq<Path>, c: seq<Path>, n: nat)
    ensures Take(Take(a + b, n) + c, n) == Take(a + (b + c), n)
  {
    assert a + (b + c) == (a + b) + c;
  }

  lemma NextExtension(adj: Adj<Id>, targets: set<Id>, stack: Path, next: seq<Id>, j: nat)
    requires 1 <= |stack| <= MAX_HOPS && j < |next|
    ensures Extensions(adj, targets, stack, next[j..])
      == if next[j] in stack then Extensions(adj, targets, stack, next[j + 1..])
         else PathsFrom(adj, targets, stack + [next[j]]) + Extensions(adj, targets, stack, next[j + 1..])
  {
    hide PathsFrom;
    assert next[j..][1..] == next[j + 1..];
  }

  class Search {
    const adj: Adj<Id>
    const targets: set<Id>
    const cap: nat
    var stack: Path
    var onPath: set<Id>
    var out: seq<Path>

    constructor (adj: Adj<Id>, targets: set<Id>, cap: nat)
      ensures this.adj == adj && this.targets == targets && this.cap == cap && out == []
    {
      this.adj, this.targets, this.cap := adj, targets, cap;
      stack, onPath, out := [], {}, [];
    }

    /** Report the paths below the stack until the cap is met, and leave the stack as it was. */
    method Dfs(node: Id)
      requires 1 <= |stack| <= MAX_HOPS + 1 && stack[|stack| - 1] == node
      requires onPath == ToSet(stack) && |out| <= cap
      modifies this
      ensures stack == old(stack) && onPath == old(onPath)
      ensures out == Take(old(out) + PathsFrom(adj, targets, stack), cap)
      decreases MAX_HOPS + 1 - |stack|, 1
    {
      if |out| >= cap {
        return;
      }
      if node in targets && |stack| > 1 {
        out := out + [stack];
        return;
      }
      if |stack| > MAX_HOPS {
        return;
      }
      var next := Succ(adj, node);
      for j := 0 to |next|
        invariant stack == old(stack) && onPath == old(onPath) && |out| <= cap
        invariant Take(out + Extensions(adj, targets, stack, next[j..]), cap)
          == Take(old(out) + Extensions(adj, targets, stack, next), cap)
      {
        NextExtension(adj, targets, stack, next, j);
        if next[j] !in onPath {
          TakeThen(out, PathsFrom(adj, targets, stack + [next[j]]), Extensions(adj, targets, stack, next[j + 1..]), cap);
          Descend(next[j]);
        }
      }
    }

    /** One node deeper and back. */
    method Descend(node: Id)
      requires 1 <= |stack| <= MAX_HOPS
      requires onPath == ToSet(stack) && node !in onPath && |out| <= cap
      modifies this
      ensures stack == old(stack) && onPath == old(onPath)
      ensures out == Take(old(out) + PathsFrom(adj, targets, stack + [node]), cap)
      decreases MAX_HOPS + 1 - |stack|, 0
    {
      ToSetAdds(stack, [node]);
      onPath := onPath + {node};
      stack := stack + [node];
      Dfs(node);
      stack := stack[..|stack| - 1];
      onPath := onPath - {node};
    }
  }

  /** Paths from the sources in turn, until there are enough. */
  method CallChain(adj: Adj<Id>, sources: seq<Id>, targets: set<Id>, maxPaths: nat) returns (paths: seq<Path>)
    ensures paths == if sources == [] || targets == {} then [] else Take(AllFrom(adj, targets, sources), ClampPaths(maxPaths))
  {
    if sources == [] || targets == {} {
      return [];
    }
    var cap := ClampPaths(maxPaths);
    var search := new Search(adj, targets, cap);
    for i := 0 to |sources|
      invariant |search.out| < cap || i == 0
      invariant search.adj == adj && search.targets == targets && search.cap == cap && |search.out| <= cap
      invariant Take(search.out + AllFrom(adj, targets, sources[i..]), cap) == Take(AllFrom(adj, targets, sources), cap)
    {
      assert sources[i..][1..] == sources[i + 1..];
      search.stack := [sources[i]];
      search.onPath := {sources[i]};
      ghost var before := search.out;
      search.Dfs(sources[i]);
      TakeThen(before, PathsFrom(adj, targets, [sources[i]]), AllFrom(adj, targets, sources[i + 1..]), cap);
      if |search.out| >= cap {
        break;
      }
    }
    paths := search.out;
  }

  // ---- what it reports ----

  /** A stack that the search can be in: a simple walk with no target strictly inside. */
  ghost predicate Partial(adj: Adj<Id>, targets: set<Id>, stack: Path) {
    && Walk(adj, stack) && Distinct(stack) && |stack| <= MAX_HOPS + 1
    && forall i | 0 < i < |stack| - 1 :: stack[i] !in targets
  }

  lemma {:induction false} PathsAreExact(adj: Adj<Id>, targets: set<Id>, stack: Path, p: Path)
    requires Partial(adj, targets, stack)
    ensures p in PathsFrom(adj, targets, stack) <==> stack <= p && CallPath(adj, targets, p)
    decreases MAX_HOPS + 1 - |stack|, 1, 0
  {
    var node := stack[|stack| - 1];
    if node in targets && |stack| > 1 {
      assert stack <= p ==> p[|stack| - 1] == node;
      assert stack <= p && |p| == |stack| ==> p == stack;
    } else if |stack| > MAX_HOPS {
      assert stack <= p && |p| <= |stack| ==> p == stack;
    } else {
      ExtensionsAreExact(adj, targets, stack, Succ(adj, node), p);
      if stack <= p && CallPath(adj, targets, p) {
        assert |p| == |stack| ==> p == stack;
        assert p[|stack| - 1 + 1] in Succ(adj, p[|stack| - 1]);
      }
    }
  }

  lemma {:induction false} ExtensionsAreExact(adj: Adj<Id>, targets: set<Id>, stack: Path, next: seq<Id>, p: Path)
    requires Partial(adj, targets, stack) && |stack| <= MAX_HOPS
    requires |stack| > 1 ==> stack[|stack| - 1] !in targets
    requires forall c | c in next :: c in Succ(adj, stack[|stack| - 1])
    ensures p in Extensions(adj, targets, stack, next)
      <==> stack <= p && |p| > |stack| && p[|stack|] in next && CallPath(adj, targets, p)
    decreases MAX_HOPS + 1 - |stack|, 0, |next|
  {
    if |next| > 0 {
      var c := next[0];
      assert c in next && forall x | x in next[1..] :: x in next;
      ExtensionsAreExact(adj, targets, stack, next[1..], p);
      assert forall x :: x in next <==> x == c || x in next[1..];
      if c in stack {
        RepeatsAreOut(adj, targets, stack, c, p);
      } else {
        assert Partial(adj, targets, stack + [c]) by {
          WalkGrows(adj, stack, c);
        }
        PathsAreExact(adj, targets, stack + [c], p);
        assert stack + [c] <= p <==> stack <= p && |p| > |stack| && p[|stack|] == c by {
          Prefixes(stack, c, p);
        }
      }
    }
  }

  lemma RepeatsAreOut(adj: Adj<Id>, targets: set<Id>, stack: Path, c: Id, p: Path)
    requires c in stack
    ensures !(stack <= p && |p| > |stack| && p[|stack|] == c && CallPath(adj, targets, p))
  {
    var i :| 0 <= i < |stack| && stack[i] == c;
    assert stack <= p ==> p[i] == stack[i];
  }

  lemma Prefixes(stack: Path, c: Id, p: Path)
    ensures stack + [c] <= p <==> stack <= p && |p| > |stack| && p[|stack|] == c
  {
    if stack + [c] <= p {
      assert p[..|stack| + 1] == stack + [c];
      assert p[..|stack|] == stack;
    }
    if stack <= p && |p| > |stack| && p[|stack|] == c {
      assert p[..|stack| + 1] == p[..|stack|] + [c];
    }
  }

  lemma {:induction false} AllAreExact(adj: Adj<Id>, targets: set<Id>, sources: seq<Id>, p: Path)
    ensures p in AllFrom(adj, targets, sources) <==> CallPath(adj, targets, p) && p[0] in sources
  {
    if |sources| > 0 {
      AllAreExact(adj, targets, sources[1..], p);
      PathsAreExact(adj, targets, [sources[0]], p);
      assert [sources[0]] <= p <==> |p| > 0 && p[0] == sources[0];
      assert |p| > 0 ==> (p[0] in sources <==> p[0] == sources[0] || p[0] in sources[1..]);
    }
  }

  /** No successor is listed twice. */
  ghost predicate NoDoubleEdges(adj: Adj<Id>) {
    forall x | x in adj :: Distinct(adj[x])
  }

  lemma DistinctSplits(a: seq<Path>, b: seq<Path>)
    requires Distinct(a) && Distinct(b) && forall p | p in a :: p !in b
    ensures Distinct(a + b)
  {
    forall i, j | 0 <= i < j < |a + b|
      ensures (a + b)[i] != (a + b)[j]
    {
      if i < |a| <= j {
        assert a[i] in a && b[j - |a|] in b;
      }
    }
  }

  lemma {:induction false} PathsAreDistinct(adj: Adj<Id>, targets: set<Id>, stack: Path)
    requires NoDoubleEdges(adj) && Partial(adj, targets, stack)
    ensures Distinct(PathsFrom(adj, targets, stack))
    decreases MAX_HOPS + 1 - |stack|, 1, 0
  {
    var node := stack[|stack| - 1];
    if !(node in targets && |stack| > 1) && |stack| <= MAX_HOPS {
      ExtensionsAreDistinct(adj, targets, stack, Succ(adj, node));
    }
  }

  lemma {:induction false} ExtensionsAreDistinct(adj: Adj<Id>, targets: set<Id>, stack: Path, next: seq<Id>)
    requires NoDoubleEdges(adj) && Partial(adj, targets, stack) && |stack| <= MAX_HOPS && Distinct(next)
    requires |stack| > 1 ==> stack[|stack| - 1] !in targets
    requires forall c | c in next :: c in Succ(adj, stack[|stack| - 1])
    ensures Distinct(Extensions(adj, targets, stack, next))
    decreases MAX_HOPS + 1 - |stack|, 0, |next|
  {
    if |next| > 0 {
      var c := next[0];
      assert c in next && forall x | x in next[1..] :: x in next;
      ExtensionsAreDistinct(adj, targets, stack, next[1..]);
      if c !in stack {
        WalkGrows(adj, stack, c);
        assert Partial(adj, targets, stack + [c]);
        PathsAreDistinct(adj, targets, stack + [c]);
        forall p | p in PathsFrom(adj, targets, stack + [c])
          ensures p !in Extensions(adj, targets, stack, next[1..])
        {
          PathsAreExact(adj, targets, stack + [c], p);
          Prefixes(stack, c, p);
          ExtensionsAreExact(adj, targets, stack, next[1..], p);
        }
        DistinctSplits(PathsFrom(adj, targets, stack + [c]), Extensions(adj, targets, stack, next[1..]));
      }
    }
  }

  lemma {:induction false} AllAreDistinct(adj: Adj<Id>, targets: set<Id>, sources: seq<Id>)
    requires NoDoubleEdges(adj) && Distinct(sources)
    ensures Distinct(AllFrom(adj, targets, sources))
  {
    if |sources| > 0 {
      AllAreDistinct(adj, targets, sources[1..]);
      PathsAreDistinct(adj, targets, [sources[0]]);
      forall p | p in PathsFrom(adj, targets, [sources[0]])
        ensures p !in AllFrom(adj, targets, sources[1..])
      {
        PathsAreExact(adj, targets, [sources[0]], p);
        AllAreExact(adj, targets, sources[1..], p);
      }
      DistinctSplits(PathsFrom(adj, targets, [sources[0]]), AllFrom(adj, targets, sources[1..]));
    }
  }

  // ---- in which order ----

  /** Where the two paths part, `p` takes a successor that is listed before the one that `q` takes. */
  ghost predicate TakesEarlier(adj: Adj<Id>, p: Path, q: Path, d: nat, i: nat, j: nat) {
    && 0 < d < |p| && d < |q| && p[..d] == q[..d]
    && i < j < |Succ(adj, p[d - 1])| && p[d] == Succ(adj, p[d - 1])[i] && q[d] == Succ(adj, p[d - 1])[j]
  }

  ghost predicate Earlier(adj: Adj<Id>, p: Path, q: Path) {
    exists d, i, j :: TakesEarlier(adj, p, q, d, i, j)
  }

  ghost predicate InSearchOrder(adj: Adj<Id>, paths: seq<Path>) {
    forall a, b | 0 <= a < b < |paths| :: Earlier(adj, paths[a], paths[b])
  }

  /** The paths from an earlier source come first, and from one source in the order of the successor lists. */
  ghost predicate EarlierFrom(adj: Adj<Id>, sources: seq<Id>, p: Path, q: Path) {
    || Earlier(adj, p, q)
    || exists i, j :: 0 <= i < j < |sources| && |p| > 0 && |q| > 0 && p[0] == sources[i] && q[0] == sources[j]
  }

  lemma OrderJoins(adj: Adj<Id>, a: seq<Path>, b: seq<Path>)
    requires InSearchOrder(adj, a) && InSearchOrder(adj, b)
    requires forall p, q | p in a && q in b :: Earlier(adj, p, q)
    ensures InSearchOrder(adj, a + b)
  {
    forall i, j | 0 <= i < j < |a + b|
      ensures Earlier(adj, (a + b)[i], (a + b)[j])
    {
      if i < |a| <= j {
        assert a[i] in a && b[j - |a|] in b;
      }
    }
  }

  /** Every path below a stack extends it. */
  lemma {:induction false} PathsExtend(adj: Adj<Id>, targets: set<Id>, stack: Path)
    requires 1 <= |stack| <= MAX_HOPS + 1
    ensures forall p | p in PathsFrom(adj, targets, stack) :: stack <= p
    decreases MAX_HOPS + 1 - |stack|, 1, 0
  {
    var node := stack[|stack| - 1];
    if !(node in targets && |stack| > 1) && |stack| <= MAX_HOPS {
      ExtensionsExtend(adj, targets, stack, Succ(adj, node));
    }
  }

  /** An extension goes on to one of the listed successors. */
  lemma {:induction false} ExtensionsExtend(adj: Adj<Id>, targets: set<Id>, stack: Path, next: seq<Id>)
    requires 1 <= |stack| <= MAX_HOPS
    ensures forall p | p in Extensions(adj, targets, stack, next) :: stack <= p && |p| > |stack| && p[|stack|] in next
    decreases MAX_HOPS + 1 - |stack|, 0, |next|
  {
    if |next| > 0 {
      ExtensionsExtend(adj, targets, stack, next[1..]);
      if next[0] !in stack {
        PathsExtend(adj, targets, stack + [next[0]]);
        forall p | p in PathsFrom(adj, targets, stack + [next[0]])
          ensures stack <= p && |p| > |stack| && p[|stack|] == next[0]
        {
          Prefixes(stack, next[0], p);
        }
      }
    }
  }

  lemma {:induction false} PathsInOrder(adj: Adj<Id>, targets: set<Id>, stack: Path)
    requires 1 <= |stack| <= MAX_HOPS + 1
    ensures InSearchOrder(adj, PathsFrom(adj, targets, stack))
    decreases MAX_HOPS + 1 - |stack|, 1, 0
  {
    var node := stack[|stack| - 1];
    if !(node in targets && |stack| > 1) && |stack| <= MAX_HOPS {
      var next := Succ(adj, node);
      assert next[0..] == next;
      ExtensionsInOrder(adj, targets, stack, 0);
    }
  }

  /** The extensions by the successors from the `k`th on. */
  lemma {:induction false} ExtensionsInOrder(adj: Adj<Id>, targets: set<Id>, stack: Path, k: nat)
    requires 1 <= |stack| <= MAX_HOPS && k <= |Succ(adj, stack[|stack| - 1])|
    ensures InSearchOrder(adj, Extensions(adj, targets, stack, Succ(adj, stack[|stack| - 1])[k..]))
    decreases MAX_HOPS + 1 - |stack|, 0, |Succ(adj, stack[|stack| - 1])| - k
  {
    hide PathsFrom, InSearchOrder, Earlier;
    var next := Succ(adj, stack[|stack| - 1]);
    if k == |next| {
      NoneInOrder(adj);
    } else {
      NextExtension(adj, targets, stack, next, k);
      ExtensionsInOrder(adj, targets, stack, k + 1);
      if next[k] !in stack {
        PathsInOrder(adj, targets, stack + [next[k]]);
        ChildBeforeRest(adj, targets, stack, k);
        OrderJoins(adj, PathsFrom(adj, targets, stack + [next[k]]), Extensions(adj, targets, stack, next[k + 1..]));
      }
    }
  }

  lemma NoneInOrder(adj: Adj<Id>)
    ensures InSearchOrder(adj, [])
  {
  }

  /** What goes on to one successor comes before what goes on to a later one. */
  lemma ChildBeforeRest(adj: Adj<Id>, targets: set<Id>, stack: Path, k: nat)
    requires 1 <= |stack| <= MAX_HOPS && k < |Succ(adj, stack[|stack| - 1])|
    ensures var next := Succ(adj, stack[|stack| - 1]);
      forall p, q | p in PathsFrom(adj, targets, stack + [next[k]]) && q in Extensions(adj, targets, stack, next[k + 1..]) ::
        Earlier(adj, p, q)
  {
    hide PathsFrom, Extensions;
    var next := Succ(adj, stack[|stack| - 1]);
    PathsExtend(adj, targets, stack + [next[k]]);
    ExtensionsExtend(adj, targets, stack, next[k + 1..]);
    forall p, q | p in PathsFrom(adj, targets, stack + [next[k]]) && q in Extensions(adj, targets, stack, next[k + 1..])
      ensures Earlier(adj, p, q)
    {
      Prefixes(stack, next[k], p);
      var j :| 0 <= j < |next| - k - 1 && next[k + 1..][j] == q[|stack|];
      assert p[..|stack|] == stack && q[..|stack|] == stack;
      assert TakesEarlier(adj, p, q, |stack|, k, k + 1 + j);
    }
  }

  lemma {:induction false} AllInOrder(adj: Adj<Id>, targets: set<Id>, sources: seq<Id>, k: nat)
    requires k <= |sources|
    ensures var all := AllFrom(adj, targets, sources[k..]);
      && (forall p | p in all :: |p| > 0 && p[0] in sources[k..])
      && forall a, b | 0 <= a < b < |all| :: EarlierFrom(adj, sources, all[a], all[b])
    decreases |sources| - k
  {
    hide PathsFrom, Earlier;
    if k < |sources| {
      AllInOrder(adj, targets, sources, k + 1);
      assert sources[k..][1..] == sources[k + 1..];
      var first, rest := PathsFrom(adj, targets, [sources[k]]), AllFrom(adj, targets, sources[k + 1..]);
      PathsInOrder(adj, targets, [sources[k]]);
      PathsExtend(adj, targets, [sources[k]]);
      forall a, b | 0 <= a < b < |first + rest|
        ensures EarlierFrom(adj, sources, (first + rest)[a], (first + rest)[b])
      {
        if b < |first| {
          assert Earlier(adj, first[a], first[b]);
        } else if a < |first| {
          var p, q := first[a], rest[b - |first|];
          assert p in first && q in rest && [sources[k]] <= p;
          var j :| 0 <= j < |sources| - k - 1 && sources[k + 1..][j] == q[0];
          assert p[0] == sources[k] && q[0] == sources[k + 1 + j];
        }
      }
    }
  }

  /** The capped search reports the earliest paths. */
  lemma FirstInOrder(adj: Adj<Id>, targets: set<Id>, sources: seq<Id>, paths: seq<Path>, cap: nat)
    requires paths == if sources == [] || targets == {} then [] else Take(AllFrom(adj, targets, sources), cap)
    ensures forall p, q | CallPath(adj, targets, p) && p[0] in sources && p !in paths && q in paths :: EarlierFrom(adj, sources, q, p)
    ensures forall a, b | 0 <= a < b < |paths| :: EarlierFrom(adj, sources, paths[a], paths[b])
  {
    hide EarlierFrom, AllFrom;
    var all := AllFrom(adj, targets, sources);
    assert sources[0..] == sources;
    AllInOrder(adj, targets, sources, 0);
    forall p, q | CallPath(adj, targets, p) && p[0] in sources && p !in paths && q in paths
      ensures EarlierFrom(adj, sources, q, p)
    {
      AllAreExact(adj, targets, sources, p);
      var a :| 0 <= a < |paths| && paths[a] == q;
      var b :| 0 <= b < |all| && all[b] == p;
      assert all[a] == q;
    }
  }

  /**
   * What `callchain` returns: only call paths from a source to a target; below the cap all of them, and at the
   * cap the earliest, source by source in the order of the successor lists; and each once when neither the
   * sources nor any successor list repeats.
   */
  method FindCallPaths(adj: Adj<Id>, sources: seq<Id>, targets: set<Id>, maxPaths: nat) returns (paths: seq<Path>)
    ensures |paths| <= ClampPaths(maxPaths)
    ensures forall p | p in paths :: CallPath(adj, targets, p) && p[0] in sources
    ensures |paths| < ClampPaths(maxPaths) ==> forall p | CallPath(adj, targets, p) && p[0] in sources :: p in paths
    ensures forall p, q | CallPath(adj, targets, p) && p[0] in sources && p !in paths && q in paths :: EarlierFrom(adj, sources, q, p)
    ensures forall a, b | 0 <= a < b < |paths| :: EarlierFrom(adj, sources, paths[a], paths[b])
    ensures NoDoubleEdges(adj) && Distinct(sources) ==> Distinct(paths)
  {
    hide EarlierFrom;
    paths := CallChain(adj, sources, targets, maxPaths);
    var cap := ClampPaths(maxPaths);
    FirstInOrder(adj, targets, sources, paths, cap);
    forall p
      ensures p in paths ==> CallPath(adj, targets, p) && p[0] in sources
      ensures |paths| < cap && CallPath(adj, targets, p) && p[0] in sources ==> p in paths
    {
      AllAreExact(adj, targets, sources, p);
    }
    if NoDoubleEdges(adj) && Distinct(sources) {
      AllAreDistinct(adj, targets, sources);
    }
  }

  // ---- on a built graph ----

  function IdsOf(path: seq<Symbol>): (p: Path)
    ensures |p| == |path| && forall i | 0 <= i < |p| :: p[i] == path[i].id
  {
    seq(|path|, i requires 0 <= i < |path| => path[i].id)
  }

  /** The graph's own symbols, with these ids. */
  ghost predicate Spells(g: Graph, path: seq<Symbol>, p: Path)
    reads g
    requires g.Valid()
  {
    |path| == |p| && forall i | 0 <= i < |p| :: g.IsSymbolOf(path[i], p[i])
  }

  /** The symbols of a path's ids, passing over an id without one. */
  method SymbolsOn(g: Graph, p: Path) returns (path: seq<Symbol>)
    requires g.Valid()
    ensures (forall i | 0 <= i < |p| :: p[i] in g.idIndex) ==> Spells(g, path, p)
  {
    path := [];
    for i := 0 to |p|
      invariant (forall k | 0 <= k < i :: p[k] in g.idIndex) ==> Spells(g, path, p[..i])
    {
      if p[i] in g.idIndex {
        path := path + [g.symbols[g.idIndex[p[i]]]];
      }
    }
    assert p[..|p|] == p;
  }

  /** A path with a call on it runs through known symbols only. */
  lemma PathIsKnown(callees: Adj<Id>, ids: set<Id>, p: Path)
    requires Joins(callees, ids) && Walk(callees, p) && |p| >= 2
    ensures forall i | 0 <= i < |p| :: p[i] in ids
  {
    forall i | 0 <= i < |p|
      ensures p[i] in ids
    {
      var k := if i == 0 then 0 else i - 1;
      assert p[k + 1] in Succ(callees, p[k]);
    }
  }

  /** The paths as the caller gets them: symbol for symbol the paths of ids, none shortened. */
  method SymbolPaths(g: Graph, sources: seq<Id>, targets: set<Id>, maxPaths: nat) returns (paths: seq<seq<Symbol>>)
    requires g.Valid()
    ensures |paths| <= ClampPaths(maxPaths)
    ensures forall path | path in paths ::
      Spells(g, path, IdsOf(path)) && CallPath(g.callees, targets, IdsOf(path)) && IdsOf(path)[0] in sources
    ensures |paths| < ClampPaths(maxPaths) ==>
      forall p | CallPath(g.callees, targets, p) && p[0] in sources :: Reported(paths, p)
    ensures NoDoubleEdges(g.callees) && Distinct(sources) ==> Distinct(paths)
  {
    hide EarlierFrom;
    var found := FindCallPaths(g.callees, sources, targets, maxPaths);
    paths := [];
    for k := 0 to |found|
      invariant |paths| == k && forall j | 0 <= j < k :: Spells(g, paths[j], found[j])
    {
      assert found[k] in found;
      PathIsKnown(g.callees, g.idIndex.Keys, found[k]);
      var path := SymbolsOn(g, found[k]);
      paths := paths + [path];
    }
    forall k | 0 <= k < |found|
      ensures IdsOf(paths[k]) == found[k] && found[k] in found
    {
      assert Spells(g, paths[k], found[k]);
    }
    forall p | p in found
      ensures Reported(paths, p)
    {
      var k :| 0 <= k < |found| && found[k] == p;
      assert IdsOf(paths[k]) == p;
    }
  }

  /** One of the paths runs through these ids. */
  ghost predicate Reported(paths: seq<seq<Symbol>>, p: Path) {
    exists k | 0 <= k < |paths| :: IdsOf(paths[k]) == p
  }

  // ---- from the document to the paths ----

  /** How often the document's kept edges join `a` to `b`. */
  function Calls(rawSymbols: seq<RawSymbol>, edges: seq<Edge>, a: Id, b: Id): nat {
    KeptEdges(edges, Min(|edges|, MAX_EDGES), Kept(rawSymbols), a, b)
  }

  /** A call path read off the document: every step is a kept edge. */
  ghost predicate DocumentPath(rawSymbols: seq<RawSymbol>, edges: seq<Edge>, targets: set<Id>, p: Path) {
    && Distinct(p) && 2 <= |p| <= MAX_HOPS + 1 && p[|p| - 1] in targets
    && (forall i | 0 < i < |p| - 1 :: p[i] !in targets)
    && forall i | 0 <= i < |p| - 1 :: Calls(rawSymbols, edges, p[i], p[i + 1]) > 0
  }

  lemma SuccIsKept(callees: Adj<Id>, callers: Adj<Id>, edges: seq<Edge>, n: nat, kept: set<Id>, a: Id, b: Id)
    requires n <= |edges| && Indexes(callees, callers, edges, n, kept)
    ensures b in Succ(callees, a) <==> KeptEdges(edges, n, kept, a, b) > 0
  {
    assert IndexedAt(callees, callers, edges, n, kept, a, b);
    assert b in Succ(callees, a) <==> multiset(Succ(callees, a))[b] > 0;
  }

  lemma PathsAreOfDocument(callees: Adj<Id>, callers: Adj<Id>, rawSymbols: seq<RawSymbol>, edges: seq<Edge>,
                           targets: set<Id>, p: Path)
    requires Indexes(callees, callers, edges, Min(|edges|, MAX_EDGES), Kept(rawSymbols))
    ensures CallPath(callees, targets, p) <==> DocumentPath(rawSymbols, edges, targets, p)
  {
    hide Indexes, Kept;
    forall i | 0 <= i < |p| - 1
      ensures p[i + 1] in Succ(callees, p[i]) <==> Calls(rawSymbols, edges, p[i], p[i + 1]) > 0
    {
      SuccIsKept(callees, callers, edges, Min(|edges|, MAX_EDGES), Kept(rawSymbols), p[i], p[i + 1]);
    }
  }

  /** A document that records no call twice has an index without double edges. */
  lemma SingleCalls(callees: Adj<Id>, callers: Adj<Id>, rawSymbols: seq<RawSymbol>, edges: seq<Edge>)
    requires Indexes(callees, callers, edges, Min(|edges|, MAX_EDGES), Kept(rawSymbols))
    requires forall a, b :: Calls(rawSymbols, edges, a, b) <= 1
    ensures NoDoubleEdges(callees)
  {
    forall a, i, j | a in callees && 0 <= i < j < |callees[a]|
      ensures callees[a][i] != callees[a][j]
    {
      var next := callees[a];
      assert Calls(rawSymbols, edges, a, next[i]) <= 1;
      assert IndexedAt(callees, callers, edges, Min(|edges|, MAX_EDGES), Kept(rawSymbols), a, next[i]);
      TwiceListed(next, i, j);
    }
  }

  lemma TwiceListed(s: seq<Id>, i: nat, j: nat)
    requires i < j < |s|
    ensures s[i] == s[j] ==> multiset(s)[s[i]] >= 2
  {
    assert s == s[..j] + s[j..];
    assert s[..j][i] in multiset(s[..j]) && s[j..][0] in multiset(s[j..]);
  }

  /**
   * The verb from end to end: index the document, search it, and report symbols. A reported path is a call path
   * of the document, and its symbols have the document's names; below the cap every one is reported; each once when the document records no call twice.
   */
  method BuildAndSearch(rawSymbols: seq<RawSymbol>, edges: seq<Edge>, sources: seq<Id>, targets: set<Id>, maxPaths: nat)
    returns (paths: seq<seq<Symbol>>)
    ensures |paths| <= ClampPaths(maxPaths)
    ensures forall path | path in paths :: DocumentPath(rawSymbols, edges, targets, IdsOf(path)) && IdsOf(path)[0] in sources
    ensures forall path, k | path in paths && 0 <= k < |path| :: OfDocument(rawSymbols, path[k])
    ensures |paths| < ClampPaths(maxPaths) ==>
      forall p | DocumentPath(rawSymbols, edges, targets, p) && p[0] in sources :: Reported(paths, p)
    ensures (forall a, b :: Calls(rawSymbols, edges, a, b) <= 1) && Distinct(sources) ==> Distinct(paths)
  {
    var g := new Graph(rawSymbols, edges);
    paths := SymbolPaths(g, sources, targets, maxPaths);
    forall path, k | path in paths && 0 <= k < |path|
      ensures OfDocument(rawSymbols, path[k])
    {
      assert g.IsSymbolOf(path[k], IdsOf(path)[k]);
    }
    forall p
      ensures CallPath(g.callees, targets, p) <==> DocumentPath(rawSymbols, edges, targets, p)
    {
      PathsAreOfDocument(g.callees, g.callers, rawSymbols, edges, targets, p);
    }
    if forall a, b :: Calls(rawSymbols, edges, a, b) <= 1 {
      SingleCalls(g.callees, g.callers, rawSymbols, edges);
    }
  }

  /** Ids that follow each other along kept calls of the document, or against them. */
  ghost predicate DocumentWalk(rawSymbols: seq<RawSymbol>, edges: seq<Edge>, backward: bool, p: Path) {
    && |p| > 0
    && forall i | 0 <= i < |p| - 1 ::
      if backward then Calls(rawSymbols, edges, p[i + 1], p[i]) > 0 else Calls(rawSymbols, edges, p[i], p[i + 1]) > 0
  }

  /** The document leads from a root to `id` in at most `steps` calls. */
  ghost predicate Leads(rawSymbols: seq<RawSymbol>, edges: seq<Edge>, backward: bool, roots: seq<Id>, steps: nat, id: Id) {
    exists p :: DocumentWalk(rawSymbols, edges, backward, p) && p[0] in roots && p[|p| - 1] == id && |p| <= steps + 1
  }

  lemma WalksAreOfDocument(g: Graph, rawSymbols: seq<RawSymbol>, edges: seq<Edge>, backward: bool, p: Path)
    requires g.Valid() && Indexes(g.callees, g.callers, edges, Min(|edges|, MAX_EDGES), Kept(rawSymbols))
    ensures Walk(if backward then g.callers else g.callees, p) <==> DocumentWalk(rawSymbols, edges, backward, p)
    ensures DocumentWalk(rawSymbols, edges, backward, p) ==> |p| > 0
  {
    hide Indexes, Kept;
    forall i | 0 <= i < |p| - 1
      ensures p[i + 1] in Succ(g.callees, p[i]) <==> Calls(rawSymbols, edges, p[i], p[i + 1]) > 0
      ensures p[i + 1] in Succ(g.callers, p[i]) <==> Calls(rawSymbols, edges, p[i + 1], p[i]) > 0
    {
      SuccIsKept(g.callees, g.callers, edges, Min(|edges|, MAX_EDGES), Kept(rawSymbols), p[i], p[i + 1]);
      PredIsKept(g.callees, g.callers, edges, Min(|edges|, MAX_EDGES), Kept(rawSymbols), p[i + 1], p[i]);
    }
  }

  lemma PredIsKept(callees: Adj<Id>, callers: Adj<Id>, edges: seq<Edge>, n: nat, kept: set<Id>, a: Id, b: Id)
    requires n <= |edges| && Indexes(callees, callers, edges, n, kept)
    ensures a in Succ(callers, b) <==> KeptEdges(edges, n, kept, a, b) > 0
  {
    assert IndexedAt(callees, callers, edges, n, kept, a, b);
    assert a in Succ(callers, b) <==> multiset(Succ(callers, b))[a] > 0;
  }

  lemma LevelIsLed(g: Graph, rawSymbols: seq<RawSymbol>, edges: seq<Edge>, backward: bool, roots: seq<Id>, steps: nat, id: Id)
    requires g.Valid() && Indexes(g.callees, g.callers, edges, Min(|edges|, MAX_EDGES), Kept(rawSymbols))
    ensures id in Level(if backward then g.callers else g.callees, ToSet(roots), steps)
      <==> Leads(rawSymbols, edges, backward, roots, steps, id)
  {
    hide Indexes, Kept, Level, Walk, DocumentWalk;
    LevelIsWalks(if backward then g.callers else g.callees, ToSet(roots), steps, id);
    forall p
      ensures Walk(if backward then g.callers else g.callees, p) <==> DocumentWalk(rawSymbols, edges, backward, p)
      ensures DocumentWalk(rawSymbols, edges, backward, p) ==> |p| > 0
    {
      WalksAreOfDocument(g, rawSymbols, edges, backward, p);
    }
  }

  /**
   * `callers` and `callees` from end to end: the nodes have the document's names; with fewer roots than the cap
   * they are ids that the document's calls lead to within the clamped steps, all of them below the cap, and the
   * edges are the document's calls between them, each as often as it is listed.
   */
  method BuildAndWalk(rawSymbols: seq<RawSymbol>, edges: seq<Edge>, roots: seq<Id>, hops: nat, backward: bool)
    returns (answer: CallGraph)
    requires forall r | r in roots :: r in Kept(rawSymbols)
    ensures answer.roots == roots
    ensures forall s | s in answer.nodes :: OfDocument(rawSymbols, s)
    ensures |ToSet(roots)| < MAX_RESULT ==> forall s | s in answer.nodes ::
      Leads(rawSymbols, edges, backward, roots, ClampHops(hops), s.id)
    ensures |ToSet(roots)| < MAX_RESULT && |NodeIds(answer.nodes)| < MAX_RESULT ==>
      forall id | Leads(rawSymbols, edges, backward, roots, ClampHops(hops), id) :: id in NodeIds(answer.nodes)
    ensures |ToSet(roots)| < MAX_RESULT ==> forall a: Id, b: Id ::
      multiset(answer.edges)[Edge(a, b)]
        == if a in NodeIds(answer.nodes) && b in NodeIds(answer.nodes) then Calls(rawSymbols, edges, a, b) else 0
  {
    hide Graph.Answers, Indexes, Kept, Leads, Calls;
    var g := new Graph(rawSymbols, edges);
    if backward {
      answer := g.Callers(roots, hops);
    } else {
      answer := g.Callees(roots, hops);
    }
    AnswerIsOfDocument(g, rawSymbols, edges, answer, roots, hops, backward);
  }

  lemma AnswerIsOfDocument(g: Graph, rawSymbols: seq<RawSymbol>, edges: seq<Edge>, answer: CallGraph, roots: seq<Id>, hops: nat,
                           backward: bool)
    requires g.Valid() && g.NamedBy(rawSymbols)
    requires Indexes(g.callees, g.callers, edges, Min(|edges|, MAX_EDGES), Kept(rawSymbols))
    requires g.Answers(answer, roots, hops, if backward then g.callers else g.callees)
    ensures answer.roots == roots
    ensures forall s | s in answer.nodes :: OfDocument(rawSymbols, s)
    ensures |ToSet(roots)| < MAX_RESULT ==> forall s | s in answer.nodes ::
      Leads(rawSymbols, edges, backward, roots, ClampHops(hops), s.id)
    ensures |ToSet(roots)| < MAX_RESULT && |NodeIds(answer.nodes)| < MAX_RESULT ==>
      forall id | Leads(rawSymbols, edges, backward, roots, ClampHops(hops), id) :: id in NodeIds(answer.nodes)
    ensures |ToSet(roots)| < MAX_RESULT ==> forall a: Id, b: Id ::
      multiset(answer.edges)[Edge(a, b)]
        == if a in NodeIds(answer.nodes) && b in NodeIds(answer.nodes) then Calls(rawSymbols, edges, a, b) else 0
  {
    hide Indexes, Kept, Leads, Level, Transposed, Joins;
    forall id: Id
      ensures id in Level(if backward then g.callers else g.callees, ToSet(roots), ClampHops(hops))
        <==> Leads(rawSymbols, edges, backward, roots, ClampHops(hops), id)
    {
      LevelIsLed(g, rawSymbols, edges, backward, roots, ClampHops(hops), id);
    }
    forall s | s in answer.nodes
      ensures OfDocument(rawSymbols, s) && s.id in NodeIds(answer.nodes)
    {
      assert g.IsSymbolOf(s, s.id);
    }
    if |ToSet(roots)| < MAX_RESULT {
      forall a: Id, b: Id
        ensures multiset(answer.edges)[Edge(a, b)]
          == if a in NodeIds(answer.nodes) && b in NodeIds(answer.nodes) then Calls(rawSymbols, edges, a, b) else 0
      {
        assert InducedAt(g.callees, NodeIds(answer.nodes), answer.edges, a, b);
        EdgeIsCounted(g.callees, g.callers, edges, Min(|edges|, MAX_EDGES), Kept(rawSymbols), a, b);
      }
    }
  }

  lemma EdgeIsCounted(callees: Adj<Id>, callers: Adj<Id>, edges: seq<Edge>, n: nat, kept: set<Id>, a: Id, b: Id)
    requires n <= |edges| && Indexes(callees, callers, edges, n, kept)
    ensures multiset(Succ(callees, a))[b] == KeptEdges(edges, n, kept, a, b)
  {
    assert IndexedAt(callees, callers, edges, n, kept, a, b);
  }
}
