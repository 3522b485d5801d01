/** The Go extractor's emission: node priorities around the changed files, and the bounded best-edge set. */
module GoEdges {
  import opened Collections

  const MAX_EDGE_WORK := 4_000_000

  const RANK_FOCUS := 0
  const RANK_HOP1 := 1
  const RANK_HOP2 := 2
  const RANK_REST := 3

  datatype Node = Node(name: string, file: string)

  /** An edge between emitted nodes, named by their positions in the emitted order. */
  datatype Edge = Edge(callerId: nat, calleeId: nat)

  // ---- the bounded set of edges ----

  ghost function Kept(buckets: seq<seq<Edge>>): set<Edge> {
    set w, i | 0 <= w < |buckets| && 0 <= i < |buckets[w]| :: buckets[w][i]
  }

  /** No bucket holds an edge twice. */
  ghost predicate NoRepeats(buckets: seq<seq<Edge>>) {
    forall w, i, j | 0 <= w < |buckets| && 0 <= i < j < |buckets[w]| :: buckets[w][i] != buckets[w][j]
  }

  /** Every edge is in the bucket of its rank. */
  ghost predicate Ranked(buckets: seq<seq<Edge>>, rankOf: Edge -> nat) {
    forall w, i | 0 <= w < |buckets| && 0 <= i < |buckets[w]| :: rankOf(buckets[w][i]) == w
  }

  /**
   * As many as fit of the edges offered are held, and the best of them: whatever was offered and is not held
   * ranks no better than anything held.
   */
  ghost predicate HoldsBest(held: set<Edge>, offered: set<Edge>, cap: nat, rankOf: Edge -> nat) {
    && held <= offered && |held| <= cap
    && (held != offered ==> |held| == cap)
    && forall k, d | k in held && d in offered && d !in held :: rankOf(k) <= rankOf(d)
  }

  /** The count that a best set has. */
  lemma HeldCount(held: set<Edge>, offered: set<Edge>, cap: nat, rankOf: Edge -> nat)
    requires HoldsBest(held, offered, cap, rankOf)
    ensures |held| == if |offered| <= cap then |offered| else cap
  {
    if held != offered {
      SubsetCount(held, offered);
    }
  }

  lemma OfferCount(held: set<Edge>, offered: set<Edge>, cap: nat, rankOf: Edge -> nat, e: Edge)
    requires HoldsBest(held, offered, cap, rankOf) && e !in held
    ensures |held| >= cap <==> |offered + {e}| > cap
  {
    if held == offered {
      assert |offered + {e}| == |offered| + 1;
    } else {
      SubsetCount(held, offered + {e});
    }
  }

  lemma FullIs(held: set<Edge>, offered: set<Edge>, cap: nat, rankOf: Edge -> nat)
    requires HoldsBest(held, offered, cap, rankOf) && |held| >= cap
    ensures |held| == cap
  {
  }

  lemma OfferFits(held: set<Edge>, offered: set<Edge>, cap: nat, rankOf: Edge -> nat, e: Edge)
    requires HoldsBest(held, offered, cap, rankOf) && |held| < cap && e !in held
    ensures HoldsBest(held + {e}, offered + {e}, cap, rankOf)
  {
  }

  lemma OfferRefused(held: set<Edge>, offered: set<Edge>, cap: nat, rankOf: Edge -> nat, e: Edge)
    requires HoldsBest(held, offered, cap, rankOf) && |held| == cap && forall k | k in held :: rankOf(k) <= rankOf(e)
    ensures HoldsBest(held, offered + {e}, cap, rankOf)
  {
  }

  lemma OfferReplaces(held: set<Edge>, offered: set<Edge>, cap: nat, rankOf: Edge -> nat, e: Edge, worst: Edge)
    requires HoldsBest(held, offered, cap, rankOf) && |held| == cap && e !in held && worst in held
    requires rankOf(worst) > rankOf(e) && forall k | k in held :: rankOf(k) <= rankOf(worst)
    ensures HoldsBest(held - {worst} + {e}, offered + {e}, cap, rankOf)
    ensures |held - {worst}| == cap - 1
  {
    assert |held - {worst}| == |held| - 1;
    assert |held - {worst} + {e}| == |held|;
  }

  /** The offers have grown from `before` to `after`, and `full` tells whether they have gone past the cap on the way. */
  ghost predicate Overflows(before: set<Edge>, after: set<Edge>, cap: nat, full: bool) {
    |before| <= |after| && ((|before| > cap || full) <==> |after| > cap)
  }

  lemma OneMoreOffer(offered: set<Edge>, cap: nat, e: Edge, full: bool)
    requires if e in offered then full ==> |offered| > cap else full <==> |offered + {e}| > cap
    ensures Overflows(offered, offered + {e}, cap, full)
  {
    if e in offered {
      assert offered + {e} == offered;
    } else {
      assert |offered + {e}| == |offered| + 1;
    }
  }

  class EdgeSet {
    const cap: nat
    const rankOf: Edge -> nat
    ghost const links: Edge -> bool   // what may be offered
    var buckets: seq<seq<Edge>>
    var total: nat
    var dedup: set<Edge>
    ghost var offered: set<Edge>

    constructor (cap: nat, rankOf: Edge -> nat, ghost links: Edge -> bool)
      ensures Valid() && offered == {} && this.cap == cap && this.rankOf == rankOf && this.links == links
    {
      this.cap, this.rankOf, this.links := cap, rankOf, links;
      buckets, total, dedup, offered := [[], [], [], []], 0, {}, {};
    }

    /** `dedup` is what the buckets hold, and that is a best set of what was offered. */
    ghost predicate Valid()
      reads this
    {
      && |buckets| == 4
      && Ranked(buckets, rankOf) && NoRepeats(buckets)
      && dedup == Kept(buckets) && |dedup| == total
      && HoldsBest(dedup, offered, cap, rankOf)
      && forall e | e in offered :: links(e)
    }

    /** Drop the last edge of the worst bucket ranked below `r`, if there is one. */
    method EvictWorse(r: nat) returns (evicted: bool, ghost worst: Edge)
      requires Valid() && r < 4
      modifies this`buckets, this`dedup
      ensures |buckets| == 4 && Ranked(buckets, rankOf) && NoRepeats(buckets) && dedup == Kept(buckets)
      ensures !evicted ==> buckets == old(buckets) && dedup == old(dedup) && forall k | k in dedup :: rankOf(k) <= r
      ensures evicted ==> worst in old(dedup) && dedup == old(dedup) - {worst} && rankOf(worst) > r
      ensures evicted ==> forall k | k in old(dedup) :: rankOf(k) <= rankOf(worst)
    {
      worst := Edge(0, 0);
      var w := 3;
      while w > r
        invariant r <= w <= 3
        invariant forall v | w < v < 4 :: buckets[v] == []
      {
        var n := |buckets[w]|;
        if n > 0 {
          var e := buckets[w][n - 1];
          Worst(buckets, rankOf, w);
          DropLast(buckets, rankOf, w);
          dedup := dedup - {e};
          buckets := buckets[w := buckets[w][..n - 1]];
          return true, e;
        }
        w := w - 1;
      }
      Worst(buckets, rankOf, r);
      evicted := false;
    }

    /** Take the edge if there is room or a worse one to drop; say whether the cap was met. */
    method Offer(e: Edge, r: nat) returns (full: bool)
      requires Valid() && links(e) && r == rankOf(e) && r < 4 && e !in dedup
      modifies this
      ensures Valid() && offered == old(offered) + {e}
      ensures full <==> |offered| > cap
    {
      hide Ranked, NoRepeats, Kept, HoldsBest;
      full := total >= cap;
      OfferCount(dedup, offered, cap, rankOf, e);
      var taken := true;
      if full {
        taken := MakeRoom(e, r);
      } else {
        OfferFits(dedup, offered, cap, rankOf, e);
      }
      if taken {
        Hold(e, r);
      }
      offered := offered + {e};
    }

    /** In a full set: drop a worse edge, if there is one. */
    method MakeRoom(e: Edge, r: nat) returns (evicted: bool)
      requires Valid() && r == rankOf(e) && r < 4 && e !in dedup && total >= cap
      modifies this`buckets, this`dedup, this`total
      ensures |buckets| == 4 && Ranked(buckets, rankOf) && NoRepeats(buckets)
      ensures dedup == Kept(buckets) && |dedup| == total && e !in dedup
      ensures HoldsBest(if evicted then dedup + {e} else dedup, offered + {e}, cap, rankOf)
    {
      hide Ranked, NoRepeats, Kept, HoldsBest;
      ghost var held := dedup;
      FullIs(held, offered, cap, rankOf);
      ghost var worst;
      evicted, worst := EvictWorse(r);
      if evicted {
        OfferReplaces(held, offered, cap, rankOf, e, worst);
        total := total - 1;
      } else {
        OfferRefused(held, offered, cap, rankOf, e);
      }
    }

    /** An edge already held is passed over. */
    method Consider(e: Edge) returns (full: bool)
      requires Valid() && links(e) && rankOf(e) < 4
      modifies this
      ensures Valid() && offered == old(offered) + {e}
      ensures Overflows(old(offered), offered, cap, full)
    {
      full := false;
      ghost var before := offered;
      if e in dedup {
        assert before + {e} == before;
      } else {
        full := Offer(e, rankOf(e));
      }
      OneMoreOffer(before, cap, e, full);
    }

    /** Offer one caller's links to each of the callees but itself; say whether the cap has cost an edge. */
    method OfferAll(caller: nat, callees: seq<nat>) returns (full: bool)
      requires Valid()
      requires forall i | 0 <= i < |callees| && callees[i] != caller ::
        links(Edge(caller, callees[i])) && rankOf(Edge(caller, callees[i])) < 4
      modifies this
      ensures Valid()
      ensures forall e :: e in offered <==> e in old(offered) || (e.callerId == caller && e.calleeId in callees && e.calleeId != caller)
      ensures Overflows(old(offered), offered, cap, full)
    {
      full := false;
      for c := 0 to |callees|
        invariant Valid()
        invariant forall e :: e in offered <==> e in old(offered) || (e.callerId == caller && e.calleeId in callees[..c] && e.calleeId != caller)
        invariant Overflows(old(offered), offered, cap, full)
      {
        assert callees[..c + 1] == callees[..c] + [callees[c]];
        if callees[c] != caller {
          var over := Consider(Edge(caller, callees[c]));
          full := full || over;
        }
      }
      assert callees[..|callees|] == callees;
    }

    method Hold(e: Edge, r: nat)
      requires |buckets| == 4 && r == rankOf(e) < 4 && e !in dedup
      requires Ranked(buckets, rankOf) && NoRepeats(buckets) && dedup == Kept(buckets) && |dedup| == total
      modifies this`buckets, this`dedup, this`total
      ensures |buckets| == 4 && Ranked(buckets, rankOf) && NoRepeats(buckets) && dedup == Kept(buckets) && |dedup| == total
      ensures dedup == old(dedup) + {e}
    {
      PushLast(buckets, r, e);
      dedup := dedup + {e};
      buckets := buckets[r := buckets[r] + [e]];
      total := total + 1;
    }

    /** Best priority first. */
    method Emit() returns (edges: seq<Edge>)
      requires Valid()
      ensures ToSet(edges) == dedup && |edges| == |dedup|
      ensures forall i, j | 0 <= i < j < |edges| :: edges[i] != edges[j] && rankOf(edges[i]) <= rankOf(edges[j])
    {
      edges := [];
      for w := 0 to 4
        invariant forall e :: e in edges <==> e in dedup && rankOf(e) < w
        invariant forall i, j | 0 <= i < j < |edges| :: edges[i] != edges[j] && rankOf(edges[i]) <= rankOf(edges[j])
      {
        BucketIs(buckets, rankOf, w);
        AppendBucket(edges, buckets[w], rankOf, w);
        edges := edges + buckets[w];
      }
      forall e | e in dedup
        ensures rankOf(e) < 4
      {
        var w, i :| 0 <= w < |buckets| && 0 <= i < |buckets[w]| && buckets[w][i] == e;
      }
      assert ToSet(edges) == dedup;
      ListedCount(edges);
    }
  }

  lemma BucketIs(buckets: seq<seq<Edge>>, rankOf: Edge -> nat, w: nat)
    requires Ranked(buckets, rankOf) && NoRepeats(buckets) && w < |buckets|
    ensures forall e :: e in buckets[w] <==> e in Kept(buckets) && rankOf(e) == w
    ensures forall i, j | 0 <= i < j < |buckets[w]| :: buckets[w][i] != buckets[w][j]
  {
    forall e | e in Kept(buckets) && rankOf(e) == w
      ensures e in buckets[w]
    {
      var v, i :| 0 <= v < |buckets| && 0 <= i < |buckets[v]| && buckets[v][i] == e;
    }
  }

  lemma AppendBucket(edges: seq<Edge>, bucket: seq<Edge>, rankOf: Edge -> nat, w: nat)
    requires forall e | e in edges :: rankOf(e) < w
    requires forall e | e in bucket :: rankOf(e) == w
    requires forall i, j | 0 <= i < j < |edges| :: edges[i] != edges[j] && rankOf(edges[i]) <= rankOf(edges[j])
    requires forall i, j | 0 <= i < j < |bucket| :: bucket[i] != bucket[j]
    ensures var r := edges + bucket;
      forall i, j | 0 <= i < j < |r| :: r[i] != r[j] && rankOf(r[i]) <= rankOf(r[j])
  {
    var r := edges + bucket;
    forall i, j | 0 <= i < j < |r|
      ensures r[i] != r[j] && rankOf(r[i]) <= rankOf(r[j])
    {
      assert i < |edges| ==> edges[i] in edges;
      assert j >= |edges| ==> bucket[j - |edges|] in bucket;
      assert i >= |edges| ==> bucket[i - |edges|] in bucket;
    }
  }

  /** With the buckets past `w` empty, nothing held ranks below `w`. */
  lemma Worst(buckets: seq<seq<Edge>>, rankOf: Edge -> nat, w: nat)
    requires |buckets| == 4 && w < 4 && Ranked(buckets, rankOf) && forall v | w < v < 4 :: buckets[v] == []
    ensures forall k | k in Kept(buckets) :: rankOf(k) <= w
  {
  }

  lemma DropLast(buckets: seq<seq<Edge>>, rankOf: Edge -> nat, w: nat)
    requires NoRepeats(buckets) && Ranked(buckets, rankOf) && w < |buckets| && |buckets[w]| > 0
    ensures var n := |buckets[w]| - 1; var after := buckets[w := buckets[w][..n]];
      NoRepeats(after) && Kept(after) == Kept(buckets) - {buckets[w][n]}
  {
    var n := |buckets[w]| - 1;
    var after := buckets[w := buckets[w][..n]];
    assert forall v, i | 0 <= v < |after| && 0 <= i < |after[v]| :: after[v][i] == buckets[v][i];
    forall e | e in Kept(buckets) && e != buckets[w][n]
      ensures e in Kept(after)
    {
      var v, i :| 0 <= v < |buckets| && 0 <= i < |buckets[v]| && buckets[v][i] == e;
      assert after[v][i] == e;
    }
  }

  lemma PushLast(buckets: seq<seq<Edge>>, w: nat, e: Edge)
    requires NoRepeats(buckets) && w < |buckets| && e !in Kept(buckets)
    ensures var after := buckets[w := buckets[w] + [e]];
      NoRepeats(after) && Kept(after) == Kept(buckets) + {e}
  {
    var after := buckets[w := buckets[w] + [e]];
    assert after[w][|buckets[w]|] == e;
    assert forall v, i | 0 <= v < |buckets| && 0 <= i < |buckets[v]| :: after[v][i] == buckets[v][i];
    assert forall v, i | 0 <= v < |buckets| && 0 <= i < |buckets[v]| :: buckets[v][i] in Kept(buckets);
  }

  // ---- resolving calls to edges ----

  /** The emitted nodes and their calls: `order` lists node indices, `rank` is by node index. */
  datatype Emission = Emission(order: seq<nat>, nodes: seq<Node>, calls: seq<seq<string>>, rank: seq<nat>)
  {
    ghost predicate Valid() {
      && |calls| == |nodes| == |rank|
      && (forall p | 0 <= p < |order| :: order[p] < |nodes|)
      && (forall p, q | 0 <= p < q < |order| :: order[p] != order[q])
      && forall i | 0 <= i < |rank| :: rank[i] < 4
    }

    /** The caller's body names the callee, and the two are different nodes. */
    ghost predicate Links(e: Edge)
      requires Valid()
    {
      && e.callerId < |order| && e.calleeId < |order| && e.callerId != e.calleeId
      && nodes[order[e.calleeId]].name in calls[order[e.callerId]]
    }

    function RankAt(p: nat): nat {
      if p < |order| && order[p] < |rank| then rank[order[p]] else RANK_REST
    }

    /** The better rank of the two ends. */
    function RankOf(e: Edge): nat {
      Better(RankAt(e.callerId), RankAt(e.calleeId))
    }
  }

  /** A link ranks as the better ranked of its two ends. */
  lemma RankMeans(em: Emission, e: Edge)
    requires em.Valid() && em.Links(e)
    ensures var caller, callee := em.rank[em.order[e.callerId]], em.rank[em.order[e.calleeId]];
      em.RankOf(e) <= caller && em.RankOf(e) <= callee && (em.RankOf(e) == caller || em.RankOf(e) == callee)
  {
  }

  function Better(a: nat, b: nat): (r: nat)
    ensures r <= a && r <= b && (r == a || r == b)
  {
    if b < a then b else a
  }

  /** The positions below `n` of the emitted nodes under a name, in emitted order. */
  function NamesAt(em: Emission, name: string, n: nat): (at: seq<nat>)
    requires em.Valid() && n <= |em.order|
    ensures forall q: nat :: q in at <==> q < n && em.nodes[em.order[q]].name == name
  {
    if n == 0 then []
    else NamesAt(em, name, n - 1) + (if em.nodes[em.order[n - 1]].name == name then [n - 1] else [])
  }

  method ByName(em: Emission) returns (byName: map<string, seq<nat>>)
    requires em.Valid()
    ensures forall name :: NamedIs(em, byName, name, |em.order|)
  {
    byName := map[];
    assert forall name :: NamedIs(em, byName, name, 0);
    hide NamesAt, NamedIs;
    for p := 0 to |em.order|
      invariant forall name :: NamedIs(em, byName, name, p)
    {
      var name := em.nodes[em.order[p]].name;
      ghost var before := byName;
      byName := byName[name := Named(byName, name) + [p]];
      NodeListed(em, before, byName, p, p + 1);
    }
  }

  lemma NodeListed(em: Emission, before: map<string, seq<nat>>, after: map<string, seq<nat>>, p: nat, next: nat)
    requires em.Valid() && p < |em.order| && next == p + 1 && forall name :: NamedIs(em, before, name, p)
    requires var name := em.nodes[em.order[p]].name; after == before[name := Named(before, name) + [p]]
    ensures forall name :: NamedIs(em, after, name, next)
  {
    hide NamesAt;
    forall other
      ensures NamedIs(em, after, other, next)
    {
      assert NamedIs(em, before, other, p);
      OneMoreNode(em, other, p);
    }
  }

  lemma OneMoreNode(em: Emission, name: string, p: nat)
    requires em.Valid() && p < |em.order|
    ensures NamesAt(em, name, p + 1) == NamesAt(em, name, p) + (if em.nodes[em.order[p]].name == name then [p] else [])
  {
  }

  ghost predicate NamedIs(em: Emission, byName: map<string, seq<nat>>, name: string, n: nat)
    requires em.Valid() && n <= |em.order|
  {
    Named(byName, name) == NamesAt(em, name, n)
  }

  function Named(byName: map<string, seq<nat>>, name: string): seq<nat> {
    if name in byName then byName[name] else []
  }

  // ---- how far the scan gets ----

  /** What the first `n` names in a caller's body cost: the nodes under each of them, a repeated name only once. */
  function Cost(em: Emission, p: nat, n: nat): nat
    requires em.Valid() && p < |em.order| && n <= |em.calls[em.order[p]]|
  {
    var names := em.calls[em.order[p]];
    if n == 0 then 0
    else Cost(em, p, n - 1) + (if names[n - 1] in names[..n - 1] then 0 else |NamesAt(em, names[n - 1], |em.order|)|)
  }

  /** The cost of every caller before `p`. */
  function WorkBefore(em: Emission, p: nat): nat
    requires em.Valid() && p <= |em.order|
  {
    if p == 0 then 0 else WorkBefore(em, p - 1) + Cost(em, p - 1, |em.calls[em.order[p - 1]]|)
  }

  function WorkAt(em: Emission, p: nat, n: nat): nat
    requires em.Valid() && p < |em.order| && n <= |em.calls[em.order[p]]|
  {
    WorkBefore(em, p) + Cost(em, p, n)
  }

  /** The scan gets to the name at `n` of the caller at `p` within its bound. */
  ghost predicate Reaches(em: Emission, p: nat, n: nat)
    requires em.Valid() && p < |em.order|
  {
    n < |em.calls[em.order[p]]| && WorkAt(em, p, n + 1) <= MAX_EDGE_WORK
  }

  /** A link that the scan looks at: it gets to the callee's name in the caller's body. */
  ghost predicate Examines(em: Emission, e: Edge)
    requires em.Valid()
  {
    && em.Links(e)
    && exists n: nat :: Reaches(em, e.callerId, n) && em.calls[em.order[e.callerId]][n] == em.nodes[em.order[e.calleeId]].name
  }

  ghost function Examined(em: Emission): (links: set<Edge>)
    requires em.Valid()
    ensures forall e :: e in links <==> Examines(em, e)
  {
    set c, d | 0 <= c < |em.order| && 0 <= d < |em.order| && Examines(em, Edge(c, d)) :: Edge(c, d)
  }

  lemma {:induction false} CostGrows(em: Emission, p: nat, m: nat, n: nat)
    requires em.Valid() && p < |em.order| && m <= n <= |em.calls[em.order[p]]|
    ensures Cost(em, p, m) <= Cost(em, p, n)
  {
    if m < n {
      CostGrows(em, p, m, n - 1);
    }
  }

  lemma {:induction false} WorkGrows(em: Emission, p: nat, q: nat)
    requires em.Valid() && p <= q <= |em.order|
    ensures WorkBefore(em, p) <= WorkBefore(em, q)
  {
    if p < q {
      WorkGrows(em, p, q - 1);
    }
  }

  lemma CallerCosts(em: Emission, p: nat)
    requires em.Valid() && p < |em.order|
    ensures WorkAt(em, p, 0) == WorkBefore(em, p)
    ensures WorkAt(em, p, |em.calls[em.order[p]]|) == WorkBefore(em, p + 1)
  {
  }

  lemma NameCosts(em: Emission, p: nat, n: nat)
    requires em.Valid() && p < |em.order| && n < |em.calls[em.order[p]]|
    ensures var names := em.calls[em.order[p]];
      WorkAt(em, p, n + 1)
        == WorkAt(em, p, n) + (if names[n] in ToSet(names[..n]) then 0 else |NamesAt(em, names[n], |em.order|)|)
  {
  }

  lemma EarlierIsCheaper(em: Emission, p: nat, n: nat, q: nat, m: nat)
    requires em.Valid() && p < |em.order| && q < |em.order|
    requires n <= |em.calls[em.order[p]]| && m <= |em.calls[em.order[q]]|
    requires p < q || (p == q && n <= m)
    ensures WorkAt(em, p, n) <= WorkAt(em, q, m)
  {
    hide WorkBefore, Cost, NamesAt;
    if p < q {
      CallerCosts(em, p);
      CostGrows(em, p, n, |em.calls[em.order[p]]|);
      WorkGrows(em, p + 1, q);
    } else {
      CostGrows(em, p, n, m);
    }
  }

  // ---- what the work is ----

  /** The emitted nodes that the first `n` names in the caller's body name, each once. */
  ghost function NamedBy(em: Emission, p: nat, n: nat): set<nat>
    requires em.Valid() && p < |em.order| && n <= |em.calls[em.order[p]]|
  {
    set q: nat | q < |em.order| && em.nodes[em.order[q]].name in em.calls[em.order[p]][..n]
  }

  lemma {:induction false} NamesAreDistinct(em: Emission, name: string, n: nat)
    requires em.Valid() && n <= |em.order|
    ensures Distinct(NamesAt(em, name, n))
  {
    if n > 0 {
      NamesAreDistinct(em, name, n - 1);
      assert n - 1 !in NamesAt(em, name, n - 1);
    }
  }

  /** A body's names cost as much as the number of nodes that they name. */
  lemma {:induction false} CostMeans(em: Emission, p: nat, n: nat)
    requires em.Valid() && p < |em.order| && n <= |em.calls[em.order[p]]|
    ensures Cost(em, p, n) == |NamedBy(em, p, n)|
  {
    hide NamedBy, NamesAt;
    if n == 0 {
      NothingNamed(em, p);
    } else {
      CostMeans(em, p, n - 1);
      OneMoreNamed(em, p, n - 1);
    }
  }

  lemma NothingNamed(em: Emission, p: nat)
    requires em.Valid() && p < |em.order|
    ensures |NamedBy(em, p, 0)| == 0
  {
    assert NamedBy(em, p, 0) == {};
  }

  lemma OneMoreNamed(em: Emission, p: nat, n: nat)
    requires em.Valid() && p < |em.order| && n < |em.calls[em.order[p]]|
    ensures var names := em.calls[em.order[p]];
      |NamedBy(em, p, n + 1)|
        == |NamedBy(em, p, n)| + (if names[n] in names[..n] then 0 else |NamesAt(em, names[n], |em.order|)|)
  {
    hide NamesAt;
    var names := em.calls[em.order[p]];
    assert names[..n + 1] == names[..n] + [names[n]];
    if names[n] in names[..n] {
      assert NamedBy(em, p, n + 1) == NamedBy(em, p, n);
    } else {
      var more := ToSet(NamesAt(em, names[n], |em.order|));
      NamesAreDistinct(em, names[n], |em.order|);
      ListedCount(NamesAt(em, names[n], |em.order|));
      assert NamedBy(em, p, n + 1) == NamedBy(em, p, n) + more;
      assert NamedBy(em, p, n) !! more;
    }
  }

  /** Pairs of an emitted caller before place `p` and an emitted node that its body names. */
  ghost function NamedPairs(em: Emission, p: nat): set<Edge>
    requires em.Valid() && p <= |em.order|
  {
    set c: nat, q: nat | c < p && q < |em.order| && em.nodes[em.order[q]].name in em.calls[em.order[c]] :: Edge(c, q)
  }

  /** The pairs of one caller. */
  ghost function PairsOf(c: nat, callees: set<nat>): set<Edge> {
    set q | q in callees :: Edge(c, q)
  }

  lemma PairsAreAsMany(c: nat, callees: set<nat>)
    ensures |PairsOf(c, callees)| == |callees|
    decreases |callees|
  {
    if callees == {} {
      assert PairsOf(c, callees) == {};
    } else {
      var q :| q in callees;
      PairsAreAsMany(c, callees - {q});
      assert PairsOf(c, callees) == PairsOf(c, callees - {q}) + {Edge(c, q)};
    }
  }

  /** The whole work is the number of pairs of a caller and a node that its body names. */
  lemma {:induction false} WorkMeans(em: Emission, p: nat)
    requires em.Valid() && p <= |em.order|
    ensures WorkBefore(em, p) == |NamedPairs(em, p)|
  {
    hide Cost, NamedBy, NamedPairs, PairsOf;
    if p == 0 {
      NoPairs(em);
    } else {
      var whole := |em.calls[em.order[p - 1]]|;
      WorkMeans(em, p - 1);
      CostMeans(em, p - 1, whole);
      PairsAreAsMany(p - 1, NamedBy(em, p - 1, whole));
      PairsSplit(em, p - 1);
    }
  }

  lemma NoPairs(em: Emission)
    requires em.Valid()
    ensures |NamedPairs(em, 0)| == 0
  {
    assert NamedPairs(em, 0) == {};
  }

  lemma PairsSplit(em: Emission, p: nat)
    requires em.Valid() && p < |em.order|
    ensures var own := PairsOf(p, NamedBy(em, p, |em.calls[em.order[p]]|));
      NamedPairs(em, p + 1) == NamedPairs(em, p) + own && NamedPairs(em, p) !! own
  {
    var names := em.calls[em.order[p]];
    assert names[..|names|] == names;
    var own := PairsOf(p, NamedBy(em, p, |names|));
    forall e
      ensures e in NamedPairs(em, p + 1) <==> e in NamedPairs(em, p) || e in own
    {
    }
  }

  // ---- which links are offered ----

  /** The links due by now: of every caller before `p`, and of `p` those to its first `n` names. */
  ghost predicate Due(em: Emission, e: Edge, p: nat, n: nat)
    requires em.Valid() && em.Links(e)
  {
    || e.callerId < p
    || (e.callerId == p && n <= |em.calls[em.order[p]]| && em.nodes[em.order[e.calleeId]].name in em.calls[em.order[p]][..n])
  }

  ghost predicate OfferedDue(em: Emission, offered: set<Edge>, p: nat, n: nat)
    requires em.Valid()
  {
    forall e :: e in offered <==> em.Links(e) && Due(em, e, p, n)
  }

  /** A scan that never meets its bound examines every link. */
  lemma WholeScan(em: Emission, offered: set<Edge>)
    requires em.Valid() && OfferedDue(em, offered, |em.order|, 0) && WorkBefore(em, |em.order|) <= MAX_EDGE_WORK
    ensures offered == Examined(em)
  {
    forall e | em.Links(e)
      ensures Examines(em, e)
    {
      AffordedIsExamined(em, e);
    }
    assert forall e :: e in offered <==> em.Links(e) && Due(em, e, |em.order|, 0);
  }

  lemma AffordedIsExamined(em: Emission, e: Edge)
    requires em.Valid() && em.Links(e) && WorkBefore(em, |em.order|) <= MAX_EDGE_WORK
    ensures Examines(em, e)
  {
    hide WorkBefore, Cost, WorkAt, NamesAt;
    var p := e.callerId;
    var names := em.calls[em.order[p]];
    var n :| 0 <= n < |names| && names[n] == em.nodes[em.order[e.calleeId]].name;
    EarlierIsCheaper(em, p, n + 1, p, |names|);
    CallerCosts(em, p);
    WorkGrows(em, p + 1, |em.order|);
    assert Reaches(em, p, n);
  }

  /** A scan that meets its bound at the name at `n` of caller `p` has examined exactly the links due by then. */
  lemma StoppedScan(em: Emission, offered: set<Edge>, p: nat, n: nat)
    requires em.Valid() && p < |em.order| && n < |em.calls[em.order[p]]| && OfferedDue(em, offered, p, n)
    requires WorkAt(em, p, n) <= MAX_EDGE_WORK < WorkAt(em, p, n + 1)
    ensures offered == Examined(em)
    ensures WorkBefore(em, |em.order|) > MAX_EDGE_WORK
  {
    hide WorkBefore, Cost, WorkAt, Due, Examines, NamesAt;
    forall e
      ensures em.Links(e) && Due(em, e, p, n) <==> Examines(em, e)
    {
      if em.Links(e) && Due(em, e, p, n) {
        DueIsExamined(em, e, p, n);
      }
      if Examines(em, e) {
        ExaminedIsDue(em, e, p, n);
      }
    }
    EarlierIsCheaper(em, p, n + 1, p, |em.calls[em.order[p]]|);
    CallerCosts(em, p);
    WorkGrows(em, p + 1, |em.order|);
  }

  lemma DueIsExamined(em: Emission, e: Edge, p: nat, n: nat)
    requires em.Valid() && em.Links(e) && p < |em.order| && n < |em.calls[em.order[p]]| && Due(em, e, p, n)
    requires WorkAt(em, p, n) <= MAX_EDGE_WORK
    ensures Examines(em, e)
  {
    hide WorkBefore, Cost, WorkAt, NamesAt;
    var name := em.nodes[em.order[e.calleeId]].name;
    var names := if e.callerId < p then em.calls[em.order[e.callerId]] else em.calls[em.order[p]][..n];
    var m :| 0 <= m < |names| && names[m] == name;
    EarlierIsCheaper(em, e.callerId, m + 1, p, n);
    assert Reaches(em, e.callerId, m);
  }

  lemma ExaminedIsDue(em: Emission, e: Edge, p: nat, n: nat)
    requires em.Valid() && Examines(em, e) && p < |em.order| && n < |em.calls[em.order[p]]|
    requires WorkAt(em, p, n + 1) > MAX_EDGE_WORK
    ensures em.Links(e) && Due(em, e, p, n)
  {
    hide WorkBefore, Cost, WorkAt, NamesAt;
    var q := e.callerId;
    var m: nat :| Reaches(em, q, m) && em.calls[em.order[q]][m] == em.nodes[em.order[e.calleeId]].name;
    if q > p || (q == p && m >= n) {
      EarlierIsCheaper(em, p, n + 1, q, m + 1);
    } else if q == p {
      assert em.calls[em.order[p]][..n][m] == em.nodes[em.order[e.calleeId]].name;
    }
  }

  // ---- the scan ----

  /** Offer the caller's links to its `n`-th name; say whether the cap has cost an edge. */
  method OfferName(held: EdgeSet, em: Emission, p: nat, n: nat, callees: seq<nat>) returns (full: bool)
    requires em.Valid() && Offering(held, em) && OfferedDue(em, held.offered, p, n)
    requires p < |em.order| && n < |em.calls[em.order[p]]|
    requires callees == NamesAt(em, em.calls[em.order[p]][n], |em.order|)
    modifies held
    ensures Offering(held, em) && OfferedDue(em, held.offered, p, n + 1)
    ensures Overflows(old(held.offered), held.offered, held.cap, full)
  {
    NamedAreLinks(em, p, n, callees);
    ghost var before := held.offered;
    full := held.OfferAll(p, callees);
    OneMoreName(em, before, held.offered, p, n, callees);
  }

  lemma NamedAreLinks(em: Emission, p: nat, n: nat, callees: seq<nat>)
    requires em.Valid() && p < |em.order| && n < |em.calls[em.order[p]]|
    requires callees == NamesAt(em, em.calls[em.order[p]][n], |em.order|)
    ensures forall i | 0 <= i < |callees| && callees[i] != p :: em.Links(Edge(p, callees[i]))
  {
    forall i | 0 <= i < |callees| && callees[i] != p
      ensures em.Links(Edge(p, callees[i]))
    {
      assert callees[i] in callees;
    }
  }

  lemma OneMoreName(em: Emission, before: set<Edge>, after: set<Edge>, p: nat, n: nat, callees: seq<nat>)
    requires em.Valid() && p < |em.order| && n < |em.calls[em.order[p]]| && OfferedDue(em, before, p, n)
    requires callees == NamesAt(em, em.calls[em.order[p]][n], |em.order|)
    requires forall e :: e in after <==> e in before || (e.callerId == p && e.calleeId in callees && e.calleeId != p)
    ensures OfferedDue(em, after, p, n + 1)
  {
    var names := em.calls[em.order[p]];
    assert names[..n + 1] == names[..n] + [names[n]];
    forall e
      ensures e in after <==> em.Links(e) && Due(em, e, p, n + 1)
    {
      if e.callerId == p && e.calleeId in callees && e.calleeId != p {
        assert em.Links(e);
      }
    }
  }

  /** A name seen before adds nothing. */
  lemma SeenName(em: Emission, offered: set<Edge>, p: nat, n: nat)
    requires em.Valid() && p < |em.order| && n < |em.calls[em.order[p]]| && OfferedDue(em, offered, p, n)
    requires em.calls[em.order[p]][n] in em.calls[em.order[p]][..n]
    ensures OfferedDue(em, offered, p, n + 1)
  {
    var names := em.calls[em.order[p]];
    assert names[..n + 1] == names[..n] + [names[n]];
    forall e | em.Links(e)
      ensures Due(em, e, p, n) <==> Due(em, e, p, n + 1)
    {
    }
  }

  lemma CallerDone(em: Emission, offered: set<Edge>, p: nat)
    requires em.Valid() && p < |em.order| && OfferedDue(em, offered, p, |em.calls[em.order[p]]|)
    ensures OfferedDue(em, offered, p + 1, 0)
  {
    var names := em.calls[em.order[p]];
    assert names[..|names|] == names;
    forall e | em.Links(e)
      ensures Due(em, e, p, |names|) <==> Due(em, e, p + 1, 0)
    {
    }
  }

  /** The set is sound, ranks as the emission does, and has been offered links only. */
  ghost predicate Offering(held: EdgeSet, em: Emission)
    reads held
    requires em.Valid()
  {
    held.Valid() && forall e :: held.rankOf(e) == em.RankOf(e) && (held.links(e) <==> em.Links(e))
  }

  /**
   * The edges between emitted nodes: a best set, within the cap, of the links that the scan examines before its
   * bound, best rank first. What was lost is told: a link past the bound, or one past the cap.
   */
  method ResolveEdges(em: Emission, edgeCap: nat, truncated: bool) returns (edges: seq<Edge>, cut: bool)
    requires em.Valid()
    ensures HoldsBest(ToSet(edges), Examined(em), edgeCap, e => em.RankOf(e))
    ensures |edges| == if |Examined(em)| <= edgeCap then |Examined(em)| else edgeCap
    ensures forall i, j | 0 <= i < j < |edges| :: edges[i] != edges[j] && em.RankOf(edges[i]) <= em.RankOf(edges[j])
    ensures cut <==> truncated || WorkBefore(em, |em.order|) > MAX_EDGE_WORK || |Examined(em)| > edgeCap
    ensures WorkBefore(em, |em.order|) <= MAX_EDGE_WORK ==> forall e | em.Links(e) :: e in Examined(em)
  {
    hide WorkBefore, OfferedDue, Examined, NamesAt, Offering;
    var byName := ByName(em);
    NothingScanned(em);
    var held := NothingOffered(em, edgeCap);
    cut := truncated;
    var work, stopped, p := 0, false, 0;
    while p < |em.order| && !stopped
      invariant fresh(held) && held.cap == edgeCap && Offering(held, em) && p <= |em.order|
      invariant !stopped ==> OfferedDue(em, held.offered, p, 0) && work == WorkBefore(em, p) <= MAX_EDGE_WORK
      invariant !stopped ==> (cut <==> truncated || |held.offered| > edgeCap)
      invariant stopped ==> cut && held.offered == Examined(em) && WorkBefore(em, |em.order|) > MAX_EDGE_WORK
      decreases |em.order| - p, !stopped
    {
      work, cut, stopped := ResolveCaller(held, em, p, byName, work, cut);
      if !stopped {
        p := p + 1;
      }
    }
    if !stopped {
      WholeScan(em, held.offered);
    }
    edges := EmitBest(held, em);
    AllWithinBound(em);
  }

  /** What is held, best rank first. */
  method EmitBest(held: EdgeSet, em: Emission) returns (edges: seq<Edge>)
    requires em.Valid() && Offering(held, em)
    ensures HoldsBest(ToSet(edges), held.offered, held.cap, e => em.RankOf(e))
    ensures |edges| == if |held.offered| <= held.cap then |held.offered| else held.cap
    ensures forall i, j | 0 <= i < j < |edges| :: edges[i] != edges[j] && em.RankOf(edges[i]) <= em.RankOf(edges[j])
  {
    edges := held.Emit();
    HeldCount(held.dedup, held.offered, held.cap, held.rankOf);
  }

  method NothingOffered(em: Emission, edgeCap: nat) returns (held: EdgeSet)
    requires em.Valid()
    ensures fresh(held) && held.cap == edgeCap && held.offered == {} && Offering(held, em)
  {
    held := new EdgeSet(edgeCap, e => em.RankOf(e), e => em.Valid() && em.Links(e));
  }

  lemma NothingScanned(em: Emission)
    requires em.Valid()
    ensures OfferedDue(em, {}, 0, 0) && WorkBefore(em, 0) == 0
  {
  }

  lemma AllWithinBound(em: Emission)
    requires em.Valid()
    ensures WorkBefore(em, |em.order|) <= MAX_EDGE_WORK ==> forall e | em.Links(e) :: e in Examined(em)
  {
    if WorkBefore(em, |em.order|) <= MAX_EDGE_WORK {
      var all := set c, d | 0 <= c < |em.order| && 0 <= d < |em.order| && em.Links(Edge(c, d)) :: Edge(c, d);
      assert OfferedDue(em, all, |em.order|, 0);
      WholeScan(em, all);
    }
  }

  /** All names that one caller's body calls, each once, until the scan has cost too much. */
  method ResolveCaller(held: EdgeSet, em: Emission, p: nat, byName: map<string, seq<nat>>, work0: nat, cut0: bool)
    returns (work: nat, cut: bool, stopped: bool)
    requires em.Valid() && Offering(held, em) && p < |em.order| && OfferedDue(em, held.offered, p, 0)
    requires forall name :: NamedIs(em, byName, name, |em.order|)
    requires work0 == WorkBefore(em, p) <= MAX_EDGE_WORK
    requires |held.offered| > held.cap ==> cut0
    modifies held
    ensures Offering(held, em)
    ensures stopped ==> cut && held.offered == Examined(em) && WorkBefore(em, |em.order|) > MAX_EDGE_WORK
    ensures !stopped ==> OfferedDue(em, held.offered, p + 1, 0) && work == WorkBefore(em, p + 1) <= MAX_EDGE_WORK
    ensures !stopped ==> (cut <==> cut0 || |held.offered| > held.cap) && |old(held.offered)| <= |held.offered|
  {
    hide WorkBefore, Cost, OfferedDue, Examined, NamesAt, Offering;
    work, cut, stopped := work0, cut0, false;
    CallerCosts(em, p);
    var names := em.calls[em.order[p]];
    var seen: set<string> := {};
    for n := 0 to |names|
      invariant Offering(held, em) && OfferedDue(em, held.offered, p, n)
      invariant seen == ToSet(names[..n])
      invariant work == WorkAt(em, p, n) <= MAX_EDGE_WORK
      invariant (cut <==> cut0 || |held.offered| > held.cap) && |old(held.offered)| <= |held.offered|
    {
      var name := names[n];
      assert names[..n + 1] == names[..n] + [name];
      NameCosts(em, p, n);
      if name in seen {
        SeenName(em, held.offered, p, n);
      } else {
        assert NamedIs(em, byName, name, |em.order|);
        var callees := Named(byName, name);
        work := work + |callees|;
        if work > MAX_EDGE_WORK {
          StoppedScan(em, held.offered, p, n);
          cut, stopped := true, true;
          return;
        }
        var full := OfferName(held, em, p, n, callees);
        cut := cut || full;
        seen := seen + {name};
      }
    }
    CallerDone(em, held.offered, p);
  }
}
