/** `dependency_path`: a shortest import path, by breadth-first search and predecessors. */
module ImportPaths {
  import opened Outcomes
  import opened Collections
  import opened Reachability

  type Pkg = string

  // ---- naming a package ----

  /** The spec is the package, or its trailing path segments. */
  predicate PkgMatches(pkg: Pkg, spec: Pkg) {
    || pkg == spec
    || (|spec| < |pkg| && pkg[|pkg| - |spec|..] == spec && pkg[|pkg| - |spec| - 1] == '/')
  }

  /** The spec is what is left of the package's path when leading segments are dropped at a slash. */
  lemma PkgMatchesMeans(pkg: Pkg, spec: Pkg)
    ensures PkgMatches(pkg, spec) <==> pkg == spec || exists leading: Pkg :: pkg == leading + "/" + spec
  {
    if PkgMatches(pkg, spec) && pkg != spec {
      assert pkg == pkg[..|pkg| - |spec| - 1] + "/" + spec;
    }
  }

  /** The spec names the package: itself when it is known, otherwise the only known package that it matches. */
  ghost predicate Names(known: set<Pkg>, spec: Pkg, pkg: Pkg) {
    && pkg in known
    && if spec in known then pkg == spec
       else PkgMatches(pkg, spec) && forall q | q in known && PkgMatches(q, spec) :: q == pkg
  }

  method MatchPkg(known: set<Pkg>, spec: Pkg) returns (r: Option<Pkg>)
    ensures r.Some? ==> Names(known, spec, r.value)
    ensures r.None? ==> forall p :: !Names(known, spec, p)
  {
    if spec in known {
      return Some(spec);
    }
    r := None;
    var left := known;
    while left != {}
      invariant left <= known
      invariant r.Some? ==> r.value in known - left && PkgMatches(r.value, spec)
      invariant forall q | q in known - left && PkgMatches(q, spec) :: r == Some(q)
      decreases |left|
    {
      var p :| p in left;
      left := left - {p};
      if PkgMatches(p, spec) {
        if r.Some? {
          return None;
        }
        r := Some(p);
      }
    }
  }

  /** A spec names one package at most. */
  lemma NamesOne(known: set<Pkg>, spec: Pkg, a: Pkg, b: Pkg)
    requires Names(known, spec, a) && Names(known, spec, b)
    ensures a == b
  {
  }

  // ---- the search ----

  /** Predecessors and depths agree: one step back is one edge, and one closer to the source. */
  ghost predicate TreeOk(adj: Adj<Pkg>, src: Pkg, prev: map<Pkg, Pkg>, depth: map<Pkg, nat>) {
    && prev.Keys == depth.Keys
    && src in prev && depth[src] == 0
    && forall x {:trigger StepsBack(adj, src, prev, depth, x)} | x in prev :: StepsBack(adj, src, prev, depth, x)
  }

  ghost predicate StepsBack(adj: Adj<Pkg>, src: Pkg, prev: map<Pkg, Pkg>, depth: map<Pkg, nat>, x: Pkg)
    requires prev.Keys == depth.Keys && x in prev
  {
    x != src ==> prev[x] in prev && x in Succ(adj, prev[x]) && depth[x] == depth[prev[x]] + 1
  }

  /** The queue holds known packages, none shallower than `d` and none deeper than `d + 1`, by depth. */
  ghost predicate QueueOk(prev: map<Pkg, Pkg>, depth: map<Pkg, nat>, queue: seq<Pkg>, d: nat) {
    && prev.Keys == depth.Keys
    && (forall x | x in prev :: depth[x] <= d + 1)
    && (forall i | 0 <= i < |queue| :: queue[i] in prev && d <= depth[queue[i]])
    && (forall i, j | 0 <= i < j < |queue| :: depth[queue[i]] <= depth[queue[j]])
  }

  /** Whatever is known, and neither queued nor being expanded, has all its imports known, one deeper at most. */
  ghost predicate DoneOk(adj: Adj<Pkg>, prev: map<Pkg, Pkg>, depth: map<Pkg, nat>, open: set<Pkg>) {
    && prev.Keys == depth.Keys
    && forall x {:trigger Expanded(adj, prev, depth, x)} | x in prev && x !in open :: Expanded(adj, prev, depth, x)
  }

  ghost predicate Expanded(adj: Adj<Pkg>, prev: map<Pkg, Pkg>, depth: map<Pkg, nat>, x: Pkg)
    requires prev.Keys == depth.Keys && x in prev
  {
    forall m | 0 <= m < |Succ(adj, x)| :: Succ(adj, x)[m] in prev && depth[Succ(adj, x)[m]] <= depth[x] + 1
  }

  /** If everything shallower than `d` is done, everything within `d` steps is known, at its distance or less. */
  lemma {:induction false} NearIsKnown(adj: Adj<Pkg>, src: Pkg, prev: map<Pkg, Pkg>, depth: map<Pkg, nat>, open: set<Pkg>, d: nat, k: nat)
    requires TreeOk(adj, src, prev, depth) && DoneOk(adj, prev, depth, open)
    requires forall x | x in open && x in prev :: depth[x] >= d
    requires k <= d
    ensures forall y | y in Level(adj, {src}, k) :: y in prev && depth[y] <= k
  {
    if k > 0 {
      NearIsKnown(adj, src, prev, depth, open, d, k - 1);
      forall y | y in Level(adj, {src}, k)
        ensures y in prev && depth[y] <= k
      {
        if y !in Level(adj, {src}, k - 1) {
          var x :| x in Level(adj, {src}, k - 1) && y in Succ(adj, x);
          assert x in prev && depth[x] <= k - 1;
          assert Expanded(adj, prev, depth, x);
        }
      }
    }
  }

  /** When nothing is open, whatever is unknown cannot be reached. */
  lemma {:induction false} UnknownIsUnreachable(adj: Adj<Pkg>, src: Pkg, prev: map<Pkg, Pkg>, depth: map<Pkg, nat>, k: nat)
    requires TreeOk(adj, src, prev, depth) && DoneOk(adj, prev, depth, {})
    ensures forall y | y in Level(adj, {src}, k) :: y in prev
  {
    if k > 0 {
      UnknownIsUnreachable(adj, src, prev, depth, k - 1);
      forall y | y in Level(adj, {src}, k)
        ensures y in prev
      {
        if y !in Level(adj, {src}, k - 1) {
          var x :| x in Level(adj, {src}, k - 1) && y in Succ(adj, x);
          assert Expanded(adj, prev, depth, x);
        }
      }
    }
  }

  lemma NoPathToUnknown(adj: Adj<Pkg>, src: Pkg, dst: Pkg, prev: map<Pkg, Pkg>, depth: map<Pkg, nat>)
    requires TreeOk(adj, src, prev, depth) && DoneOk(adj, prev, depth, {}) && dst !in prev
    ensures forall p :: !PathBetween(adj, src, dst, p)
  {
    forall p
      ensures !PathBetween(adj, src, dst, p)
    {
      if PathBetween(adj, src, dst, p) {
        UnknownIsUnreachable(adj, src, prev, depth, |p| - 1);
        WalkIsInLevel(adj, {src}, |p| - 1, p);
      }
    }
  }

  ghost predicate PathBetween(adj: Adj<Pkg>, src: Pkg, dst: Pkg, p: seq<Pkg>) {
    Walk(adj, p) && p[0] == src && p[|p| - 1] == dst
  }

  ghost predicate Shortest(adj: Adj<Pkg>, src: Pkg, dst: Pkg, p: seq<Pkg>) {
    PathBetween(adj, src, dst, p) && forall q | PathBetween(adj, src, dst, q) :: |p| <= |q|
  }

  /** Follow the predecessors from `dst` back to `src`; each step is one closer, so this ends. */
  method Reconstruct(adj: Adj<Pkg>, prev: map<Pkg, Pkg>, src: Pkg, dst: Pkg, ghost depth: map<Pkg, nat>) returns (path: seq<Pkg>)
    requires TreeOk(adj, src, prev, depth) && dst in prev
    ensures PathBetween(adj, src, dst, path) && |path| == depth[dst] + 1
  {
    var back := [dst];
    var cur := dst;
    while cur != src
      invariant |back| > 0 && cur in prev && back[0] == dst && back[|back| - 1] == cur && |back| + depth[cur] == depth[dst] + 1
      invariant forall i | 0 <= i < |back| - 1 :: back[i] in Succ(adj, back[i + 1])
      decreases depth[cur]
    {
      assert StepsBack(adj, src, prev, depth, cur);
      var p := prev[cur];
      back := back + [p];
      cur := p;
    }
    path := Reverse(back);
    forall i | 0 <= i < |path| - 1
      ensures path[i + 1] in Succ(adj, path[i])
    {
      var j := |back| - 2 - i;
      assert back[j] in Succ(adj, back[j + 1]);
    }
  }

  /** A path found one step beyond what is within `d` steps is a shortest one. */
  lemma FoundIsShortest(adj: Adj<Pkg>, src: Pkg, dst: Pkg, d: nat, path: seq<Pkg>)
    requires PathBetween(adj, src, dst, path) && |path| == d + 2
    requires dst !in Level(adj, {src}, d)
    ensures Shortest(adj, src, dst, path)
  {
    forall q | PathBetween(adj, src, dst, q)
      ensures |path| <= |q|
    {
      if |q| <= d + 1 {
        WalkIsInLevel(adj, {src}, d, q);
      }
    }
  }

  /** For two specs that name packages, a shortest import path or, exactly when there is none, nothing. */
  method DependencyPath(adj: Adj<Pkg>, known: set<Pkg>, fromSpec: Pkg, toSpec: Pkg) returns (path: seq<Pkg>)
    ensures forall src, dst | Names(known, fromSpec, src) && Names(known, toSpec, dst) ::
      && (path != [] ==> Shortest(adj, src, dst, path))
      && (path == [] <==> forall p :: !PathBetween(adj, src, dst, p))
    ensures path != [] ==> Names(known, fromSpec, path[0]) && Names(known, toSpec, path[|path| - 1])
  {
    var src := MatchPkg(known, fromSpec);
    if src.None? {
      return [];
    }
    var dst := MatchPkg(known, toSpec);
    if dst.None? {
      return [];
    }
    path := ShortestPath(adj, src.value, dst.value);
    forall s, d | Names(known, fromSpec, s) && Names(known, toSpec, d)
      ensures s == src.value && d == dst.value
    {
      NamesOne(known, fromSpec, s, src.value);
      NamesOne(known, toSpec, d, dst.value);
    }
  }

  /** A shortest path, or nothing exactly when there is none. */
  method ShortestPath(adj: Adj<Pkg>, src: Pkg, dst: Pkg) returns (path: seq<Pkg>)
    ensures path != [] ==> Shortest(adj, src, dst, path)
    ensures path == [] <==> forall p :: !PathBetween(adj, src, dst, p)
  {
    if src == dst {
      path := [src];
      assert PathBetween(adj, src, dst, path);
      return;
    }
    path := Search(adj, src, dst);
  }

  method Search(adj: Adj<Pkg>, src: Pkg, dst: Pkg) returns (path: seq<Pkg>)
    requires src != dst
    ensures path != [] ==> Shortest(adj, src, dst, path)
    ensures path == [] ==> forall p :: !PathBetween(adj, src, dst, p)
  {
    var prev: map<Pkg, Pkg> := map[src := src];
    ghost var depth: map<Pkg, nat> := map[src := 0];
    ghost var d := 0;
    var queue := [src];
    StartIsFine(adj, src, dst);
    while queue != []
      invariant Searching(adj, src, dst, prev, depth, queue, d, {})
      decreases Work(adj, prev, queue)
    {
      var cur := queue[0];
      PopKeeps(adj, src, dst, prev, depth, queue, d);
      queue, d := queue[1..], depth[cur];
      DestinationIsFurther(adj, src, dst, prev, depth, queue, d, cur);
      var found;
      prev, depth, queue, found := Expand(adj, src, dst, prev, depth, queue, cur, d);
      if found {
        path := Reconstruct(adj, prev, src, dst, depth);
        FoundIsShortest(adj, src, dst, d, path);
        return;
      }
    }
    NoPathToUnknown(adj, src, dst, prev, depth);
    path := [];
  }

  lemma StartIsFine(adj: Adj<Pkg>, src: Pkg, dst: Pkg)
    requires src != dst
    ensures Searching(adj, src, dst, map[src := src], map[src := 0], [src], 0, {})
  {
  }

  lemma DestinationIsFurther(adj: Adj<Pkg>, src: Pkg, dst: Pkg, prev: map<Pkg, Pkg>, depth: map<Pkg, nat>, queue: seq<Pkg>, d: nat, cur: Pkg)
    requires Searching(adj, src, dst, prev, depth, queue, d, {cur}) && cur in prev && depth[cur] == d
    ensures dst !in Level(adj, {src}, d)
  {
    NearIsKnown(adj, src, prev, depth, (set x | x in queue) + {cur}, d, d);
  }

  /** Packages that can still be learned, and packages still to expand. */
  ghost function Work(adj: Adj<Pkg>, prev: map<Pkg, Pkg>, queue: seq<Pkg>): nat {
    |Unknown(adj, prev)| + |queue|
  }

  /** The invariant of the search; `cur` is the package being expanded, if any. */
  ghost predicate Searching(adj: Adj<Pkg>, src: Pkg, dst: Pkg, prev: map<Pkg, Pkg>, depth: map<Pkg, nat>, queue: seq<Pkg>, d: nat, cur: set<Pkg>) {
    && TreeOk(adj, src, prev, depth) && dst !in prev
    && QueueOk(prev, depth, queue, d)
    && DoneOk(adj, prev, depth, (set x | x in queue) + cur)
  }

  lemma PopKeeps(adj: Adj<Pkg>, src: Pkg, dst: Pkg, prev: map<Pkg, Pkg>, depth: map<Pkg, nat>, queue: seq<Pkg>, d: nat)
    requires queue != [] && Searching(adj, src, dst, prev, depth, queue, d, {})
    ensures queue[0] in prev && Searching(adj, src, dst, prev, depth, queue[1..], depth[queue[0]], {queue[0]})
  {
    assert (set x | x in queue) + {} == (set x | x in queue[1..]) + {queue[0]};
  }

  lemma PushKeeps(adj: Adj<Pkg>, src: Pkg, dst: Pkg, prev: map<Pkg, Pkg>, depth: map<Pkg, nat>, queue: seq<Pkg>, cur: Pkg, to: Pkg)
    requires cur in prev && cur in depth && Searching(adj, src, dst, prev, depth, queue, depth[cur], {cur})
    requires to !in prev && to in Succ(adj, cur)
    ensures TreeOk(adj, src, prev[to := cur], depth[to := depth[cur] + 1])
    ensures to != dst ==>
      Searching(adj, src, dst, prev[to := cur], depth[to := depth[cur] + 1], queue + [to], depth[cur], {cur})
    ensures Work(adj, prev[to := cur], queue + [to]) == Work(adj, prev, queue)
  {
    PushTree(adj, src, prev, depth, cur, to);
    PushQueue(prev, depth, queue, cur, to);
    PushDone(adj, prev, depth, (set x | x in queue) + {cur}, cur, to);
    assert (set x | x in queue + [to]) + {cur} == (set x | x in queue) + {cur} + {to};
    PushUnknown(adj, prev, cur, to);
  }

  lemma PushTree(adj: Adj<Pkg>, src: Pkg, prev: map<Pkg, Pkg>, depth: map<Pkg, nat>, cur: Pkg, to: Pkg)
    requires TreeOk(adj, src, prev, depth) && cur in prev && to !in prev && to in Succ(adj, cur)
    ensures TreeOk(adj, src, prev[to := cur], depth[to := depth[cur] + 1])
  {
    var prev', depth' := prev[to := cur], depth[to := depth[cur] + 1];
    forall x | x in prev'
      ensures StepsBack(adj, src, prev', depth', x)
    {
      assert x != to ==> StepsBack(adj, src, prev, depth, x);
    }
  }

  lemma PushQueue(prev: map<Pkg, Pkg>, depth: map<Pkg, nat>, queue: seq<Pkg>, cur: Pkg, to: Pkg)
    requires cur in prev && cur in depth && QueueOk(prev, depth, queue, depth[cur]) && to !in prev
    ensures QueueOk(prev[to := cur], depth[to := depth[cur] + 1], queue + [to], depth[cur])
  {
  }

  lemma PushDone(adj: Adj<Pkg>, prev: map<Pkg, Pkg>, depth: map<Pkg, nat>, open: set<Pkg>, cur: Pkg, to: Pkg)
    requires cur in depth && DoneOk(adj, prev, depth, open) && to !in prev
    ensures DoneOk(adj, prev[to := cur], depth[to := depth[cur] + 1], open + {to})
  {
    forall x | x in prev[to := cur] && x !in open + {to}
      ensures Expanded(adj, prev[to := cur], depth[to := depth[cur] + 1], x)
    {
      assert Expanded(adj, prev, depth, x);
    }
  }

  lemma PushUnknown(adj: Adj<Pkg>, prev: map<Pkg, Pkg>, cur: Pkg, to: Pkg)
    requires to !in prev && to in Succ(adj, cur)
    ensures |Unknown(adj, prev[to := cur])| + 1 == |Unknown(adj, prev)|
  {
    assert to in Image(adj, adj.Keys);
    assert Unknown(adj, prev) == Unknown(adj, prev[to := cur]) + {to};
  }

  lemma ExpandEnds(adj: Adj<Pkg>, src: Pkg, dst: Pkg, prev: map<Pkg, Pkg>, depth: map<Pkg, nat>, queue: seq<Pkg>, d: nat, cur: Pkg)
    requires Searching(adj, src, dst, prev, depth, queue, d, {cur}) && cur in prev && depth[cur] == d
    requires forall m | 0 <= m < |Succ(adj, cur)| :: Succ(adj, cur)[m] in prev
    ensures Searching(adj, src, dst, prev, depth, queue, d, {})
  {
    forall x | x in prev && x !in (set q | q in queue) + {}
      ensures Expanded(adj, prev, depth, x)
    {
      assert x != cur ==> Expanded(adj, prev, depth, x);
    }
  }

  /** Learn the imports of `cur`, and stop as soon as the destination is one of them. */
  method Expand(adj: Adj<Pkg>, src: Pkg, dst: Pkg, prev: map<Pkg, Pkg>, ghost depth: map<Pkg, nat>, queue: seq<Pkg>, cur: Pkg, ghost d: nat)
    returns (prev': map<Pkg, Pkg>, ghost depth': map<Pkg, nat>, queue': seq<Pkg>, found: bool)
    requires Searching(adj, src, dst, prev, depth, queue, d, {cur}) && cur in prev && cur in depth && depth[cur] == d
    ensures found ==> TreeOk(adj, src, prev', depth') && dst in prev' && depth'[dst] == d + 1
    ensures !found ==> Searching(adj, src, dst, prev', depth', queue', d, {}) && Work(adj, prev', queue') == Work(adj, prev, queue)
  {
    hide Searching, TreeOk, Work;
    prev', depth', queue', found := prev, depth, queue, false;
    var next := Succ(adj, cur);
    for j := 0 to |next|
      invariant Searching(adj, src, dst, prev', depth', queue', d, {cur}) && cur in prev' && cur in depth' && depth'[cur] == d && !found
      invariant forall m | 0 <= m < j :: next[m] in prev'
      invariant Work(adj, prev', queue') == Work(adj, prev, queue)
    {
      if next[j] !in prev' {
        prev', depth', queue', found := Learn(adj, src, dst, prev', depth', queue', cur, d, next[j]);
        if found {
          return;
        }
      }
    }
    ExpandEnds(adj, src, dst, prev', depth', queue', d, cur);
  }

  /** One new package. */
  method Learn(adj: Adj<Pkg>, src: Pkg, dst: Pkg, prev: map<Pkg, Pkg>, ghost depth: map<Pkg, nat>, queue: seq<Pkg>, cur: Pkg, ghost d: nat, to: Pkg)
    returns (prev': map<Pkg, Pkg>, ghost depth': map<Pkg, nat>, queue': seq<Pkg>, found: bool)
    requires Searching(adj, src, dst, prev, depth, queue, d, {cur}) && cur in prev && depth[cur] == d
    requires to !in prev && to in Succ(adj, cur)
    ensures prev' == prev[to := cur] && depth' == depth[to := d + 1] && found == (to == dst)
    ensures found ==> TreeOk(adj, src, prev', depth')
    ensures !found ==> Searching(adj, src, dst, prev', depth', queue', d, {cur}) && Work(adj, prev', queue') == Work(adj, prev, queue)
  {
    PushKeeps(adj, src, dst, prev, depth, queue, cur, to);
    prev', depth', queue' := prev[to := cur], depth[to := d + 1], queue;
    found := to == dst;
    if !found {
      queue' := queue + [to];
    }
  }

  /** The imported packages not yet known. */
  ghost function Unknown(adj: Adj<Pkg>, prev: map<Pkg, Pkg>): set<Pkg> {
    Image(adj, adj.Keys) - prev.Keys
  }
}
