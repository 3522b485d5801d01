/** The in-memory code graph: its indices, bounded breadth-first search, and the induced subgraph. */
module CodeGraph {
  import opened Collections
  import opened Reachability

  type Id = nat

  const MAX_SYMBOLS := 20_000
  const MAX_EDGES := 100_000
  const MAX_HOPS := 8
  const MAX_RESULT := 500

  /** A symbol of the helper's document; `confined` says that its file stays inside the repository. */
  datatype RawSymbol = RawSymbol(id: Id, name: string, confined: bool)

  datatype Symbol = Symbol(id: Id, name: string)

  datatype Edge = Edge(caller: Id, callee: Id)

  function Min(a: nat, b: nat): (m: nat)
    ensures m <= a && m <= b && (m == a || m == b)
  {
    if a < b then a else b
  }

  /** The number of steps asked for, but at least one and at most eight. */
  function ClampHops(hops: nat): (h: nat)
    ensures 1 <= hops <= 8 ==> h == hops
    ensures hops < 1 ==> h == 1
    ensures hops > 8 ==> h == 8
  {
    if hops < 1 then 1 else Min(hops, MAX_HOPS)
  }

  // ---- what the indices mean ----

  /** The ids of the symbols kept: among the first `MAX_SYMBOLS`, those whose file is confined. */
  function Kept(symbols: seq<RawSymbol>): set<Id> {
    set i | 0 <= i < Min(|symbols|, MAX_SYMBOLS) && symbols[i].confined :: symbols[i].id
  }

  /** The document's last word on an id: symbol `i` is kept, and no later kept symbol has the id. */
  ghost predicate LastWord(symbols: seq<RawSymbol>, id: Id, i: nat) {
    && i < |symbols| && i < MAX_SYMBOLS && symbols[i].confined && symbols[i].id == id
    && forall j | i < j < |symbols| && j < MAX_SYMBOLS && symbols[j].confined :: symbols[j].id != id
  }

  /** A symbol as the document has it. */
  ghost predicate OfDocument(symbols: seq<RawSymbol>, s: Symbol) {
    exists i: nat :: LastWord(symbols, s.id, i) && s.name == symbols[i].name
  }

  /** How often the edge from `a` to `b` is kept among the first `n` of the document. */
  function KeptEdges(edges: seq<Edge>, n: nat, kept: set<Id>, a: Id, b: Id): nat
    requires n <= |edges|
  {
    if n == 0 then 0
    else KeptEdges(edges, n - 1, kept, a, b) + (if a in kept && b in kept && edges[n - 1] == Edge(a, b) then 1 else 0)
  }

  /** An edge between kept ids counts as often as the document lists it, and any other not at all. */
  lemma {:induction false} KeptEdgesCounts(edges: seq<Edge>, n: nat, kept: set<Id>, a: Id, b: Id)
    requires n <= |edges|
    ensures KeptEdges(edges, n, kept, a, b) == if a in kept && b in kept then multiset(edges[..n])[Edge(a, b)] else 0
  {
    if n > 0 {
      KeptEdgesCounts(edges, n - 1, kept, a, b);
      assert edges[..n] == edges[..n - 1] + [edges[n - 1]];
    }
  }

  /** Both indices hold the edge from `a` to `b` as often as it is kept among the first `n`. */
  ghost predicate IndexedAt(callees: Adj<Id>, callers: Adj<Id>, edges: seq<Edge>, n: nat, kept: set<Id>, a: Id, b: Id)
    requires n <= |edges|
  {
    && multiset(Succ(callees, a))[b] == KeptEdges(edges, n, kept, a, b)
    && multiset(Succ(callers, b))[a] == KeptEdges(edges, n, kept, a, b)
  }

  ghost predicate Indexes(callees: Adj<Id>, callers: Adj<Id>, edges: seq<Edge>, n: nat, kept: set<Id>)
    requires n <= |edges|
  {
    forall a: Id, b: Id :: IndexedAt(callees, callers, edges, n, kept, a, b)
  }

  function Push(adj: Adj<Id>, at: Id, x: Id): Adj<Id> {
    adj[at := Succ(adj, at) + [x]]
  }

  lemma PushCounts(adj: Adj<Id>, at: Id, x: Id, a: Id, b: Id)
    ensures multiset(Succ(Push(adj, at, x), a))[b] == multiset(Succ(adj, a))[b] + (if a == at && b == x then 1 else 0)
  {
    if a == at {
      assert multiset(Succ(adj, at) + [x]) == multiset(Succ(adj, at)) + multiset{x};
    }
  }

  lemma EdgeIndexed(callees: Adj<Id>, callers: Adj<Id>, edges: seq<Edge>, n: nat, kept: set<Id>)
    requires n < |edges| && Indexes(callees, callers, edges, n, kept)
    ensures var e := edges[n];
      if e.caller in kept && e.callee in kept
      then Indexes(Push(callees, e.caller, e.callee), Push(callers, e.callee, e.caller), edges, n + 1, kept)
      else Indexes(callees, callers, edges, n + 1, kept)
  {
    var e := edges[n];
    var more := n + 1;
    if e.caller in kept && e.callee in kept {
      forall a: Id, b: Id
        ensures IndexedAt(Push(callees, e.caller, e.callee), Push(callers, e.callee, e.caller), edges, more, kept, a, b)
      {
        assert IndexedAt(callees, callers, edges, n, kept, a, b);
        PushCounts(callees, e.caller, e.callee, a, b);
        PushCounts(callers, e.callee, e.caller, b, a);
      }
    } else {
      forall a: Id, b: Id
        ensures IndexedAt(callees, callers, edges, more, kept, a, b)
      {
        assert IndexedAt(callees, callers, edges, n, kept, a, b);
      }
    }
  }

  lemma {:induction false} KeptEdgeEnds(edges: seq<Edge>, n: nat, kept: set<Id>, a: Id, b: Id)
    requires n <= |edges| && KeptEdges(edges, n, kept, a, b) > 0
    ensures a in kept && b in kept && Edge(a, b) in edges[..n]
  {
    if KeptEdges(edges, n - 1, kept, a, b) > 0 {
      KeptEdgeEnds(edges, n - 1, kept, a, b);
      assert edges[..n - 1] <= edges[..n];
    } else {
      assert edges[..n][n - 1] == Edge(a, b);
    }
  }

  /** Every edge has both ends among the ids. */
  ghost predicate Joins(adj: Adj<Id>, ids: set<Id>) {
    forall a, i | a in adj && 0 <= i < |adj[a]| :: adj[a][i] in ids && a in ids
  }

  lemma IndicesAreOneRelation(callees: Adj<Id>, callers: Adj<Id>, edges: seq<Edge>, n: nat, kept: set<Id>)
    requires n <= |edges| && Indexes(callees, callers, edges, n, kept)
    ensures Transposed(callees, callers)
    ensures Joins(callees, kept)
    ensures forall a, i | a in callees && 0 <= i < |callees[a]| :: Edge(a, callees[a][i]) in edges[..n]
  {
    forall a: Id, b: Id
      ensures TransposedAt(callees, callers, a, b)
    {
      assert IndexedAt(callees, callers, edges, n, kept, a, b);
    }
    forall a, i | a in callees && 0 <= i < |callees[a]|
      ensures a in kept && callees[a][i] in kept && Edge(a, callees[a][i]) in edges[..n]
    {
      var b := callees[a][i];
      assert IndexedAt(callees, callers, edges, n, kept, a, b);
      assert multiset(Succ(callees, a))[b] > 0;
      KeptEdgeEnds(edges, n, kept, a, b);
    }
  }

  class Graph {
    var symbols: seq<Symbol>
    var idIndex: map<Id, nat>
    var callers: Adj<Id>
    var callees: Adj<Id>

    /** Every edge joins known symbols, and the two indices are one relation read both ways. */
    ghost predicate Valid()
      reads this
    {
      && (forall id | id in idIndex :: idIndex[id] < |symbols| && symbols[idIndex[id]].id == id)
      && Joins(callees, idIndex.Keys)
      && Transposed(callees, callers)
    }

    /** Every stored symbol has the name that the document gives its id. */
    ghost predicate NamedBy(rawSymbols: seq<RawSymbol>)
      reads this
      requires Valid()
    {
      forall id | id in idIndex :: OfDocument(rawSymbols, symbols[idIndex[id]])
    }

    /** Build the indices from the document, edge by edge. */
    constructor (rawSymbols: seq<RawSymbol>, edges: seq<Edge>)
      ensures Valid()
      ensures idIndex.Keys == Kept(rawSymbols)
      ensures NamedBy(rawSymbols)
      ensures forall id | id in Kept(rawSymbols) ::
        exists i: nat :: LastWord(rawSymbols, id, i) && symbols[idIndex[id]] == Symbol(id, rawSymbols[i].name)
      ensures Indexes(callees, callers, edges, Min(|edges|, MAX_EDGES), Kept(rawSymbols))
    {
      var syms, index := IndexSymbols(rawSymbols);
      var forward, backward := IndexEdges(edges, index.Keys);
      IndicesAreOneRelation(forward, backward, edges, Min(|edges|, MAX_EDGES), index.Keys);
      symbols, idIndex, callees, callers := syms, index, forward, backward;
    }

    static method IndexSymbols(raw: seq<RawSymbol>) returns (syms: seq<Symbol>, index: map<Id, nat>)
      ensures index.Keys == Kept(raw)
      ensures forall id | id in index :: index[id] < |syms| && syms[index[id]].id == id && OfDocument(raw, syms[index[id]])
    {
      syms, index := [], map[];
      for i := 0 to Min(|raw|, MAX_SYMBOLS)
        invariant index.Keys == set j | 0 <= j < i && raw[j].confined :: raw[j].id
        invariant forall id | id in index :: index[id] < |syms| && syms[index[id]].id == id && OfDocument(raw[..i], syms[index[id]])
      {
        if raw[i].confined {
          ghost var before := index;
          index := index[raw[i].id := |syms|];
          syms := syms + [Symbol(raw[i].id, raw[i].name)];
          NewestIsLast(raw, i);
          forall id | id in index
            ensures OfDocument(raw[..i + 1], syms[index[id]])
          {
            if id != raw[i].id {
              OlderStays(raw, i, syms[before[id]]);
            }
          }
        } else {
          forall id | id in index
            ensures OfDocument(raw[..i + 1], syms[index[id]])
          {
            OlderStays(raw, i, syms[index[id]]);
          }
        }
      }
      forall id | id in index
        ensures OfDocument(raw, syms[index[id]])
      {
        CapIsEnough(raw, syms[index[id]]);
      }
    }

    static lemma NewestIsLast(raw: seq<RawSymbol>, i: nat)
      requires i < |raw| && i < MAX_SYMBOLS && raw[i].confined
      ensures OfDocument(raw[..i + 1], Symbol(raw[i].id, raw[i].name))
    {
      assert LastWord(raw[..i + 1], raw[i].id, i);
    }

    /** A symbol that is dropped, or has another id, changes nothing. */
    static lemma OlderStays(raw: seq<RawSymbol>, i: nat, s: Symbol)
      requires i < |raw| && OfDocument(raw[..i], s) && (raw[i].confined ==> raw[i].id != s.id)
      ensures OfDocument(raw[..i + 1], s)
    {
      var k: nat :| LastWord(raw[..i], s.id, k) && s.name == raw[..i][k].name;
      assert LastWord(raw[..i + 1], s.id, k);
    }

    static lemma CapIsEnough(raw: seq<RawSymbol>, s: Symbol)
      requires OfDocument(raw[..Min(|raw|, MAX_SYMBOLS)], s)
      ensures OfDocument(raw, s)
    {
      var head := raw[..Min(|raw|, MAX_SYMBOLS)];
      var k: nat :| LastWord(head, s.id, k) && s.name == head[k].name;
      forall j | k < j < |raw| && j < MAX_SYMBOLS && raw[j].confined
        ensures raw[j].id != s.id
      {
        assert head[j] == raw[j];
      }
      assert LastWord(raw, s.id, k);
    }

    static method IndexEdges(edges: seq<Edge>, kept: set<Id>) returns (forward: Adj<Id>, backward: Adj<Id>)
      ensures Indexes(forward, backward, edges, Min(|edges|, MAX_EDGES), kept)
    {
      forward, backward := map[], map[];
      for n := 0 to Min(|edges|, MAX_EDGES)
        invariant Indexes(forward, backward, edges, n, kept)
      {
        EdgeIndexed(forward, backward, edges, n, kept);
        var e := edges[n];
        if e.caller in kept && e.callee in kept {
          forward := Push(forward, e.caller, e.callee);
          backward := Push(backward, e.callee, e.caller);
        }
      }
    }

    /** The symbols of the known ids, each once and in the order given: all of them, or as many as the cap allows. */
    method SymbolsFor(ids: seq<Id>) returns (out: seq<Symbol>)
      requires Valid()
      ensures |out| == Min(|KnownOnce(ids, idIndex.Keys)|, MAX_RESULT)
      ensures forall k | 0 <= k < |out| :: out[k].id == KnownOnce(ids, idIndex.Keys)[k]
      ensures forall s | s in out :: s.id in ids && s.id in idIndex && s == symbols[idIndex[s.id]]
      ensures forall i, j | 0 <= i < j < |out| :: out[i].id != out[j].id
      ensures |ToSet(ids)| <= MAX_RESULT ==> forall id | id in ids && id in idIndex :: symbols[idIndex[id]] in out
    {
      hide KnownOnce;
      out := [];
      var seen: set<Id> := {};
      NoIds(idIndex.Keys);
      assert ids[..0] == [];
      for i := 0 to |ids|
        invariant |out| < MAX_RESULT && Finds(ids[..i], out)
        invariant seen == ToSet(ids[..i])
      {
        assert ids[..i + 1] == ids[..i] + [ids[i]];
        OneMoreId(ids, i, idIndex.Keys);
        if ids[i] !in seen {
          seen := seen + {ids[i]};
          if ids[i] in idIndex {
            out := out + [symbols[idIndex[ids[i]]]];
            if |out| >= MAX_RESULT {
              KnownPrefix(ids, i + 1, idIndex.Keys);
              FoundSymbols(ids, out);
              return;
            }
          }
        }
      }
      assert ids[..|ids|] == ids;
      FoundSymbols(ids, out);
    }

    /** The symbols of all the known ids, each where it first appears. */
    ghost predicate Finds(ids: seq<Id>, out: seq<Symbol>)
      reads this
      requires Valid()
    {
      && |out| == |KnownOnce(ids, idIndex.Keys)|
      && forall k | 0 <= k < |out| :: IsSymbolOf(out[k], KnownOnce(ids, idIndex.Keys)[k])
    }

    ghost predicate IsSymbolOf(s: Symbol, id: Id)
      reads this
      requires Valid()
    {
      id in idIndex && s == symbols[idIndex[id]] && s.id == id
    }

    lemma FoundSymbols(ids: seq<Id>, out: seq<Symbol>)
      requires Valid()
      requires |out| == Min(|KnownOnce(ids, idIndex.Keys)|, MAX_RESULT)
      requires forall k | 0 <= k < |out| :: IsSymbolOf(out[k], KnownOnce(ids, idIndex.Keys)[k])
      ensures forall s | s in out :: s.id in ids && s.id in idIndex && s == symbols[idIndex[s.id]]
      ensures forall i, j | 0 <= i < j < |out| :: out[i].id != out[j].id
      ensures |ToSet(ids)| <= MAX_RESULT ==> forall id | id in ids && id in idIndex :: symbols[idIndex[id]] in out
    {
      var once := KnownOnce(ids, idIndex.Keys);
      KnownOnceIs(ids, idIndex.Keys);
      forall k | 0 <= k < |out|
        ensures out[k].id in ids
      {
        assert once[k] in once;
      }
      if |ToSet(ids)| <= MAX_RESULT {
        ListedCount(once);
        SubsetCount(ToSet(once), ToSet(ids));
        forall id | id in ids && id in idIndex
          ensures symbols[idIndex[id]] in out
        {
          assert id in once;
          var k :| 0 <= k < |once| && once[k] == id;
          assert IsSymbolOf(out[k], once[k]);
        }
      }
    }

    /** The visited symbols, and every call edge between two visited ids. */
    method Subgraph(roots: seq<Id>, visited: set<Id>) returns (g: CallGraph)
      requires Valid()
      ensures g.roots == roots
      ensures forall a: Id, b: Id :: InducedAt(callees, visited, g.edges, a, b)
      ensures forall s | s in g.nodes :: s.id in visited && IsSymbolOf(s, s.id)
      ensures |visited| <= MAX_RESULT && visited <= idIndex.Keys ==> NodeIds(g.nodes) == visited
    {
      var edges: seq<Edge> := [];
      var left := callees.Keys;
      while left != {}
        invariant left <= callees.Keys
        invariant forall a: Id, b: Id :: if a in left then multiset(edges)[Edge(a, b)] == 0 else InducedAt(callees, visited, edges, a, b)
        decreases |left|
      {
        var caller :| caller in left;
        edges := EdgesFrom(callees, visited, edges, caller);
        left := left - {caller};
      }
      var ids := Enumerate(visited);
      var nodes := SymbolsFor(ids);
      g := CallGraph(nodes, edges, roots);
      if |visited| <= MAX_RESULT && visited <= idIndex.Keys {
        forall id | id in visited
          ensures id in NodeIds(nodes)
        {
          assert id in ids;
          assert symbols[idIndex[id]] in nodes;
        }
      }
    }

    static method EdgesFrom(callees: Adj<Id>, visited: set<Id>, before: seq<Edge>, caller: Id) returns (edges: seq<Edge>)
      requires caller in callees && forall b: Id :: multiset(before)[Edge(caller, b)] == 0
      ensures forall b: Id :: InducedAt(callees, visited, edges, caller, b)
      ensures forall a: Id, b: Id | a != caller :: multiset(edges)[Edge(a, b)] == multiset(before)[Edge(a, b)]
    {
      edges := before;
      if caller in visited {
        var next := callees[caller];
        for j := 0 to |next|
          invariant forall b: Id :: multiset(edges)[Edge(caller, b)] == if b in visited then multiset(next[..j])[b] else 0
          invariant forall a: Id, b: Id | a != caller :: multiset(edges)[Edge(a, b)] == multiset(before)[Edge(a, b)]
        {
          assert next[..j + 1] == next[..j] + [next[j]];
          if next[j] in visited {
            edges := edges + [Edge(caller, next[j])];
          }
        }
        assert next[..|next|] == next;
      }
    }

    /** Who calls the roots, out to `hops` steps back. */
    method Callers(roots: seq<Id>, hops: nat) returns (g: CallGraph)
      requires Valid() && forall r | r in roots :: r in idIndex
      ensures Answers(g, roots, hops, callers)
    {
      var visited := Bfs(roots, hops, callers);
      BackwardJoins(callees, callers, idIndex.Keys);
      LevelStaysInside(callers, ToSet(roots), ClampHops(hops), idIndex.Keys);
      g := Subgraph(roots, visited);
    }

    /** Whom the roots call, out to `hops` steps. */
    method Callees(roots: seq<Id>, hops: nat) returns (g: CallGraph)
      requires Valid() && forall r | r in roots :: r in idIndex
      ensures Answers(g, roots, hops, callees)
    {
      var visited := Bfs(roots, hops, callees);
      LevelStaysInside(callees, ToSet(roots), ClampHops(hops), idIndex.Keys);
      g := Subgraph(roots, visited);
    }

    /**
     * The nodes are the graph's own symbols. With fewer roots than the cap, they are among those within the clamped number of steps, and all of
     * them below the cap; the edges are the call edges between two nodes, each as often as it was recorded.
     */
    ghost predicate Answers(g: CallGraph, roots: seq<Id>, hops: nat, adj: Adj<Id>)
      reads this
      requires Valid()
    {
      && g.roots == roots
      && (forall s | s in g.nodes :: IsSymbolOf(s, s.id))
      && (|ToSet(roots)| < MAX_RESULT ==>
            && ToSet(roots) <= NodeIds(g.nodes) <= Level(adj, ToSet(roots), ClampHops(hops))
            && (|NodeIds(g.nodes)| < MAX_RESULT ==> NodeIds(g.nodes) == Level(adj, ToSet(roots), ClampHops(hops)))
            && forall a: Id, b: Id :: InducedAt(callees, NodeIds(g.nodes), g.edges, a, b))
    }

    /** Everything within the clamped number of steps, unless the walk meets the cap on results. */
    static method Bfs(seeds: seq<Id>, hops: nat, adj: Adj<Id>) returns (visited: set<Id>)
      ensures ToSet(seeds) <= visited <= Level(adj, ToSet(seeds), ClampHops(hops))
      ensures |visited| < MAX_RESULT ==> visited == Level(adj, ToSet(seeds), ClampHops(hops))
      ensures |ToSet(seeds)| < MAX_RESULT ==> |visited| <= MAX_RESULT
    {
      ghost var start := ToSet(seeds);
      visited := ToSet(seeds);
      var frontier := seeds;
      var rounds := ClampHops(hops);
      for r := 0 to rounds
        invariant visited == Level(adj, start, r) && Swept(adj, start, r, frontier)
        invariant |start| < MAX_RESULT ==> |visited| < MAX_RESULT
      {
        var next, capped;
        SuccessorsAreImages(adj, frontier);
        visited, next, capped := Sweep(adj, frontier, visited, Image(adj, ToSet(frontier)));
        RoundEnds(adj, start, r, rounds, frontier, visited, next, capped);
        if capped || next == [] {
          return;
        }
        frontier := next;
      }
      LevelGrows(adj, start, 0, rounds);
    }

    /** Add the successors of the frontier, which are among `image`, and collect the new ones; stop short at the cap. */
    static method Sweep(adj: Adj<Id>, frontier: seq<Id>, before: set<Id>, ghost image: set<Id>)
      returns (visited: set<Id>, next: seq<Id>, capped: bool)
      requires forall i | 0 <= i < |frontier| :: ToSet(Succ(adj, frontier[i])) <= image
      ensures Added(before, visited, next) && ToSet(next) <= image
      ensures !capped ==> forall i | 0 <= i < |frontier| :: ToSet(Succ(adj, frontier[i])) <= visited
      ensures Capped(before, visited, capped)
    {
      visited, next, capped := before, [], false;
      for i := 0 to |frontier|
        invariant Added(before, visited, next) && ToSet(next) <= image && !capped
        invariant forall m | 0 <= m < i :: ToSet(Succ(adj, frontier[m])) <= visited
        invariant Capped(before, visited, false)
      {
        var found;
        visited, found, capped := Visit(Succ(adj, frontier[i]), visited);
        ToSetAdds(next, found);
        next := next + found;
        if capped {
          return;
        }
      }
    }

    /** One node's successors. */
    static method Visit(neigh: seq<Id>, before: set<Id>) returns (visited: set<Id>, found: seq<Id>, capped: bool)
      ensures Added(before, visited, found) && ToSet(found) <= ToSet(neigh)
      ensures !capped ==> ToSet(neigh) <= visited
      ensures Capped(before, visited, capped)
    {
      visited, found, capped := before, [], false;
      for j := 0 to |neigh|
        invariant Added(before, visited, found) && ToSet(found) <= ToSet(neigh) && !capped
        invariant forall m | 0 <= m < j :: neigh[m] in visited
        invariant Capped(before, visited, false)
      {
        if neigh[j] !in visited {
          ToSetAdds(found, [neigh[j]]);
          visited := visited + {neigh[j]};
          found := found + [neigh[j]];
          if |visited| >= MAX_RESULT {
            capped := true;
            return;
          }
        }
      }
    }
  }

  ghost predicate Added(before: set<Id>, after: set<Id>, more: seq<Id>) {
    forall x :: x in after <==> x in before || x in more
  }

  lemma ToSetAdds(a: seq<Id>, b: seq<Id>)
    ensures ToSet(a + b) == ToSet(a) + ToSet(b)
  {
  }

  datatype CallGraph = CallGraph(nodes: seq<Symbol>, edges: seq<Edge>, roots: seq<Id>)

  function NodeIds(nodes: seq<Symbol>): set<Id> {
    set s | s in nodes :: s.id
  }

  /** The edge from `a` to `b` is listed as often as it was recorded, if both ends are in the set, and otherwise not. */
  ghost predicate InducedAt(adj: Adj<Id>, ids: set<Id>, edges: seq<Edge>, a: Id, b: Id) {
    multiset(edges)[Edge(a, b)] == if a in ids && b in ids then multiset(Succ(adj, a))[b] else 0
  }

  method Enumerate(ids: set<Id>) returns (order: seq<Id>)
    ensures ToSet(order) == ids && |order| == |ids|
  {
    order := [];
    var left := ids;
    while left != {}
      invariant ToSet(order) + left == ids && ToSet(order) !! left && |order| + |left| == |ids|
      decreases |left|
    {
      var id :| id in left;
      ToSetAdds(order, [id]);
      left := left - {id};
      order := order + [id];
    }
  }

  /** The known ids of a list, each where it first appears. */
  function KnownOnce(ids: seq<Id>, known: set<Id>): seq<Id> {
    if |ids| == 0 then []
    else
      var front, last := ids[..|ids| - 1], ids[|ids| - 1];
      KnownOnce(front, known) + (if last in front || last !in known then [] else [last])
  }

  lemma NoIds(known: set<Id>)
    ensures KnownOnce([], known) == []
  {
  }

  lemma OneMoreId(ids: seq<Id>, i: nat, known: set<Id>)
    requires i < |ids|
    ensures KnownOnce(ids[..i + 1], known)
      == KnownOnce(ids[..i], known) + (if ids[i] in ToSet(ids[..i]) || ids[i] !in known then [] else [ids[i]])
  {
    assert ids[..i + 1][..i] == ids[..i];
  }

  lemma {:induction false} KnownOnceIs(ids: seq<Id>, known: set<Id>)
    ensures Distinct(KnownOnce(ids, known))
    ensures forall id :: id in KnownOnce(ids, known) <==> id in ids && id in known
  {
    if |ids| > 0 {
      var front, last := ids[..|ids| - 1], ids[|ids| - 1];
      KnownOnceIs(front, known);
      assert forall id :: id in ids <==> id in front || id == last;
    }
  }

  /** `x` is in the list at a place that `y` has not appeared by. */
  ghost predicate AppearsBefore(ids: seq<Id>, x: Id, y: Id) {
    exists i :: 0 <= i < |ids| && ids[i] == x && y != x && forall j | 0 <= j < i :: ids[j] != y
  }

  ghost predicate InFirstOrder(ids: seq<Id>, once: seq<Id>) {
    forall a, b | 0 <= a < b < |once| :: AppearsBefore(ids, once[a], once[b])
  }

  /** The known ids are in the order in which they first appear. */
  lemma {:induction false} KnownOnceInOrder(ids: seq<Id>, known: set<Id>)
    ensures InFirstOrder(ids, KnownOnce(ids, known))
  {
    if |ids| > 0 {
      var front, last := ids[..|ids| - 1], ids[|ids| - 1];
      KnownOnceInOrder(front, known);
      KnownOnceIs(front, known);
      var before, once := KnownOnce(front, known), KnownOnce(ids, known);
      forall a, b | 0 <= a < b < |once|
        ensures AppearsBefore(ids, once[a], once[b])
      {
        assert once[a] == before[a] && before[a] in before;
        if b < |before| {
          assert once[b] == before[b];
          assert AppearsBefore(front, before[a], before[b]);
          var i :| 0 <= i < |front| && front[i] == before[a] && forall j | 0 <= j < i :: front[j] != before[b];
          assert ids[i] == once[a];
        } else {
          var i :| 0 <= i < |front| && front[i] == before[a];
          assert ids[i] == once[a];
        }
      }
    }
  }

  lemma {:induction false} KnownPrefix(ids: seq<Id>, n: nat, known: set<Id>)
    requires n <= |ids|
    ensures KnownOnce(ids[..n], known) <= KnownOnce(ids, known)
  {
    if n < |ids| {
      assert ids[..|ids| - 1][..n] == ids[..n];
      KnownPrefix(ids[..|ids| - 1], n, known);
    } else {
      assert ids[..n] == ids;
    }
  }

  /** A search cannot leave the ids that every edge joins. */
  lemma {:induction false} LevelStaysInside(adj: Adj<Id>, start: set<Id>, k: nat, ids: set<Id>)
    requires start <= ids && Joins(adj, ids)
    ensures Level(adj, start, k) <= ids
  {
    if k > 0 {
      LevelStaysInside(adj, start, k - 1, ids);
    }
  }

  lemma BackwardJoins(adj: Adj<Id>, back: Adj<Id>, ids: set<Id>)
    requires Transposed(adj, back) && Joins(adj, ids)
    ensures Joins(back, ids)
  {
    forall b, i | b in back && 0 <= i < |back[b]|
      ensures back[b][i] in ids && b in ids
    {
      var a := back[b][i];
      assert TransposedAt(adj, back, a, b);
      assert multiset(back[b])[a] > 0;
      assert b in Succ(adj, a);
      var m :| 0 <= m < |Succ(adj, a)| && Succ(adj, a)[m] == b;
      assert adj[a][m] in ids;
    }
  }

  /** A search stops at the cap exactly, unless it starts past it. */
  predicate Capped(before: set<Id>, visited: set<Id>, capped: bool) {
    if capped then |visited| >= MAX_RESULT && (|before| < MAX_RESULT ==> |visited| == MAX_RESULT)
    else |before| < MAX_RESULT ==> |visited| < MAX_RESULT
  }

  /** The frontier is in the level, and every earlier node has had its successors added. */
  ghost predicate Swept(adj: Adj<Id>, start: set<Id>, r: nat, frontier: seq<Id>) {
    && (forall x | x in frontier :: x in Level(adj, start, r))
    && forall x, y | x in Level(adj, start, r) && x !in frontier && y in Succ(adj, x) :: y in Level(adj, start, r)
  }

  lemma SuccessorsAreImages(adj: Adj<Id>, frontier: seq<Id>)
    ensures forall i | 0 <= i < |frontier| :: ToSet(Succ(adj, frontier[i])) <= Image(adj, ToSet(frontier))
  {
    forall i | 0 <= i < |frontier|
      ensures ToSet(Succ(adj, frontier[i])) <= Image(adj, ToSet(frontier))
    {
      assert frontier[i] in ToSet(frontier);
    }
  }

  lemma SweepStaysWithin(adj: Adj<Id>, start: set<Id>, r: nat, frontier: seq<Id>, next: seq<Id>)
    requires Swept(adj, start, r, frontier)
    requires ToSet(next) <= Image(adj, ToSet(frontier))
    ensures Level(adj, start, r) + ToSet(next) <= Level(adj, start, r + 1)
  {
    forall y | y in ToSet(next)
      ensures y in Image(adj, Level(adj, start, r))
    {
      var x :| x in ToSet(frontier) && y in Succ(adj, x);
    }
  }

  /** After a full sweep of the frontier, the visited set is the next level and the new nodes its frontier. */
  lemma SweepEnds(adj: Adj<Id>, start: set<Id>, r: nat, frontier: seq<Id>, visited: set<Id>, next: seq<Id>)
    requires Swept(adj, start, r, frontier)
    requires visited == Level(adj, start, r) + ToSet(next) <= Level(adj, start, r + 1)
    requires forall i | 0 <= i < |frontier| :: ToSet(Succ(adj, frontier[i])) <= visited
    ensures visited == Level(adj, start, r + 1) && Swept(adj, start, r + 1, next)
    ensures next == [] ==> Level(adj, start, r + 1) == Level(adj, start, r)
  {
    var level := Level(adj, start, r);
    forall x, y | x in level && y in Succ(adj, x)
      ensures y in visited
    {
      if x in frontier {
        var i :| 0 <= i < |frontier| && frontier[i] == x;
        assert y in ToSet(Succ(adj, frontier[i]));
      }
    }
    assert Image(adj, level) <= visited;
  }

  lemma RoundEnds(adj: Adj<Id>, start: set<Id>, r: nat, rounds: nat, frontier: seq<Id>, visited: set<Id>, next: seq<Id>, capped: bool)
    requires r < rounds && Swept(adj, start, r, frontier)
    requires Added(Level(adj, start, r), visited, next)
    requires ToSet(next) <= Image(adj, ToSet(frontier))
    requires !capped ==> forall i | 0 <= i < |frontier| :: ToSet(Succ(adj, frontier[i])) <= visited
    ensures start <= visited <= Level(adj, start, rounds)
    ensures !capped ==> visited == Level(adj, start, r + 1) && Swept(adj, start, r + 1, next)
    ensures !capped && next == [] ==> visited == Level(adj, start, rounds)
  {
    LevelGrows(adj, start, 0, r);
    SweepStaysWithin(adj, start, r, frontier, next);
    LevelGrows(adj, start, r + 1, rounds);
    if !capped {
      SweepEnds(adj, start, r, frontier, visited, next);
      if next == [] {
        LevelStops(adj, start, r, rounds);
      }
    }
  }
}
