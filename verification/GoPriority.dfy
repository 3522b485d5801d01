/** Which functions the Go extractor emits first: the changed files', their neighbours, then their callers. */
module GoPriority {
  import opened GoEdges

  /** A parsed repository: functions, the names that each body calls, and the changed files. */
  datatype Repo = Repo(nodes: seq<Node>, calls: seq<seq<string>>, focus: set<string>)
  {
    predicate Valid() {
      |calls| == |nodes|
    }

    /** Calls are resolved by name alone. */
    predicate Calls(u: nat, i: nat)
      requires Valid() && u < |nodes| && i < |nodes|
    {
      nodes[i].name in calls[u]
    }

    predicate InFocus(i: nat)
      requires i < |nodes|
    {
      nodes[i].file in focus
    }

    /** A direct caller or callee of a function in focus. */
    ghost predicate Hop1(i: nat)
      requires Valid() && i < |nodes|
    {
      !InFocus(i) && exists f | 0 <= f < |nodes| :: InFocus(f) && (Calls(f, i) || Calls(i, f))
    }

    /** A caller of one of those that is neither. */
    ghost predicate Hop2(i: nat)
      requires Valid() && i < |nodes|
    {
      !InFocus(i) && !Hop1(i) && exists h | 0 <= h < |nodes| :: Hop1(h) && Calls(i, h)
    }

    ghost function RankFor(i: nat): nat
      requires Valid() && i < |nodes|
    {
      if InFocus(i) then RANK_FOCUS else if Hop1(i) then RANK_HOP1 else if Hop2(i) then RANK_HOP2 else RANK_REST
    }
  }

  /** The functions whose bodies name any of the given ones. */
  method CallersOf(repo: Repo, targets: seq<nat>) returns (out: seq<nat>)
    requires repo.Valid() && forall t | t in targets :: t < |repo.nodes|
    ensures forall u: nat :: u in out <==> u < |repo.nodes| && exists t | t in targets :: repo.Calls(u, t)
  {
    var names := set t | t in targets :: repo.nodes[t].name;
    out := [];
    for u := 0 to |repo.calls|
      invariant forall v: nat :: v in out <==> v < u && exists t | t in targets :: repo.Calls(v, t)
    {
      var hit := Mentions(repo.calls[u], names);
      assert hit <==> exists t | t in targets :: repo.Calls(u, t) by {
        if hit {
          var c :| c in repo.calls[u] && c in names;
          var t :| t in targets && repo.nodes[t].name == c;
          assert repo.Calls(u, t);
        }
      }
      if hit {
        out := out + [u];
      }
    }
  }

  method Mentions(calls: seq<string>, names: set<string>) returns (hit: bool)
    ensures hit <==> exists c :: c in calls && c in names
  {
    for k := 0 to |calls|
      invariant forall m | 0 <= m < k :: calls[m] !in names
    {
      if calls[k] in names {
        assert calls[k] in calls;
        return true;
      }
    }
    return false;
  }

  /** Give `r` to those of `marked` that rank worse, and return them. */
  method Mark(rank: array<nat>, marked: seq<nat>, r: nat) returns (improved: seq<nat>)
    requires forall i | i in marked :: i < rank.Length
    modifies rank
    ensures forall i | 0 <= i < rank.Length ::
      rank[i] == if i in marked && old(rank[i]) > r then r else old(rank[i])
    ensures forall i: nat :: i in improved <==> i < rank.Length && i in marked && old(rank[i]) > r
  {
    improved := [];
    for k := 0 to |marked|
      invariant forall i | 0 <= i < rank.Length ::
        rank[i] == if i in marked[..k] && old(rank[i]) > r then r else old(rank[i])
      invariant forall i: nat :: i in improved <==> i < rank.Length && i in marked[..k] && old(rank[i]) > r
    {
      assert marked[..k + 1] == marked[..k] + [marked[k]];
      assert marked[k] in marked;
      if rank[marked[k]] > r {
        rank[marked[k]] := r;
        improved := improved + [marked[k]];
      }
    }
    assert marked[..|marked|] == marked;
  }

  /** The functions that a function in focus calls or is called by, the focus itself included. */
  method Neighbours(repo: Repo, level: seq<nat>) returns (near: seq<nat>)
    requires repo.Valid()
    requires forall i: nat :: i in level <==> i < |repo.nodes| && repo.InFocus(i)
    ensures forall i: nat :: i in near <==>
      i < |repo.nodes| && exists f | 0 <= f < |repo.nodes| :: repo.InFocus(f) && (repo.Calls(f, i) || repo.Calls(i, f))
  {
    var callees := set f, c | f in level && c in repo.calls[f] :: c;
    near := [];
    for i := 0 to |repo.nodes|
      invariant forall j: nat :: j in near <==> j < i && repo.nodes[j].name in callees
    {
      if repo.nodes[i].name in callees {
        near := near + [i];
      }
    }
    var callers := CallersOf(repo, level);
    ghost var called := near;
    near := near + callers;
    forall i: nat
      ensures i in near <==>
        i < |repo.nodes| && exists f | 0 <= f < |repo.nodes| :: repo.InFocus(f) && (repo.Calls(f, i) || repo.Calls(i, f))
    {
      NeighbourIs(repo, level, callees, called, callers, i);
    }
  }

  lemma NeighbourIs(repo: Repo, level: seq<nat>, callees: set<string>, called: seq<nat>, callers: seq<nat>, i: nat)
    requires repo.Valid()
    requires forall f: nat :: f in level <==> f < |repo.nodes| && repo.InFocus(f)
    requires callees == set f, c | f in level && c in repo.calls[f] :: c
    requires forall j: nat :: j in called <==> j < |repo.nodes| && repo.nodes[j].name in callees
    requires forall u: nat :: u in callers <==> u < |repo.nodes| && exists t | t in level :: repo.Calls(u, t)
    ensures i in called + callers <==>
      i < |repo.nodes| && exists f | 0 <= f < |repo.nodes| :: repo.InFocus(f) && (repo.Calls(f, i) || repo.Calls(i, f))
  {
    if i in called {
      var f :| f in level && repo.nodes[i].name in repo.calls[f];
      assert repo.InFocus(f) && repo.Calls(f, i);
    }
    if i in callers {
      var t :| t in level && repo.Calls(i, t);
      assert repo.InFocus(t);
    }
    if i < |repo.nodes| && exists f | 0 <= f < |repo.nodes| :: repo.InFocus(f) && (repo.Calls(f, i) || repo.Calls(i, f)) {
      var f :| 0 <= f < |repo.nodes| && repo.InFocus(f) && (repo.Calls(f, i) || repo.Calls(i, f));
      assert f in level;
    }
  }

  /** Better rank first, walk order within a rank. */
  ghost predicate Precedes(rank: seq<nat>, a: nat, b: nat) {
    a < |rank| && b < |rank| && (rank[a] < rank[b] || (rank[a] == rank[b] && a < b))
  }

  method SortByRank(rank: seq<nat>) returns (order: seq<nat>)
    ensures |order| == |rank| && forall i | 0 <= i < |rank| :: i in order
    ensures forall a, b | 0 <= a < b < |order| :: Precedes(rank, order[a], order[b])
  {
    order := [];
    for i := 0 to |rank|
      invariant |order| == i && forall x: nat :: x in order <==> x < i
      invariant forall a, b | 0 <= a < b < |order| :: Precedes(rank, order[a], order[b])
    {
      var at := |order|;
      assert forall a | 0 <= a < |order| :: order[a] in order;
      while at > 0 && rank[order[at - 1]] > rank[i]
        invariant 0 <= at <= |order|
        invariant forall a | at <= a < |order| :: rank[order[a]] > rank[i]
      {
        at := at - 1;
      }
      InsertedInOrder(rank, order, i, at);
      order := order[..at] + [i] + order[at..];
    }
  }

  lemma InsertedInOrder(rank: seq<nat>, order: seq<nat>, i: nat, at: nat)
    requires i < |rank| && at <= |order| && forall x: nat :: x in order <==> x < i
    requires forall a, b | 0 <= a < b < |order| :: Precedes(rank, order[a], order[b])
    requires forall a | at <= a < |order| :: order[a] < |rank| && rank[order[a]] > rank[i]
    requires at > 0 ==> order[at - 1] < |rank| && rank[order[at - 1]] <= rank[i]
    ensures var r := order[..at] + [i] + order[at..];
      && (forall a, b | 0 <= a < b < |r| :: Precedes(rank, r[a], r[b]))
      && forall x: nat :: x in r <==> x <= i
  {
    var r := order[..at] + [i] + order[at..];
    InsertedMembers(order, i, at);
    assert forall a | 0 <= a < |order| :: order[a] in order;
    forall a, b | 0 <= a < b < |r|
      ensures Precedes(rank, r[a], r[b])
    {
      var a', b' := if a < at then a else a - 1, if b < at then b else b - 1;
      if a == at {
        assert r[b] == order[b'];
      } else if b == at {
        assert r[a] == order[a'] && (a' == at - 1 || Precedes(rank, order[a'], order[at - 1]));
      } else {
        assert r[a] == order[a'] && r[b] == order[b'] && Precedes(rank, order[a'], order[b']);
      }
    }
  }

  lemma InsertedMembers(order: seq<nat>, i: nat, at: nat)
    requires at <= |order| && forall x: nat :: x in order <==> x < i
    ensures forall x: nat :: x in order[..at] + [i] + order[at..] <==> x <= i
  {
    forall x: nat
      ensures x in order[..at] + [i] + order[at..] <==> x <= i
    {
      assert order == order[..at] + order[at..];
      assert x in order[..at] + [i] + order[at..] <==> x == i || x in order;
    }
  }

  method Priority(repo: Repo) returns (order: seq<nat>, ranks: seq<nat>)
    requires repo.Valid()
    ensures |ranks| == |repo.nodes| && forall i | 0 <= i < |ranks| :: ranks[i] == repo.RankFor(i)
    ensures |order| == |repo.nodes| && forall i | 0 <= i < |ranks| :: i in order
    ensures forall a, b | 0 <= a < b < |order| :: Precedes(ranks, order[a], order[b])
  {
    var n := |repo.nodes|;
    var rank := new nat[n](_ => RANK_REST);
    var level: seq<nat> := [];
    for i := 0 to n
      invariant forall j: nat :: j in level <==> j < i && repo.InFocus(j)
      invariant forall j | 0 <= j < n :: rank[j] == if j < i && repo.InFocus(j) then RANK_FOCUS else RANK_REST
    {
      if repo.nodes[i].file in repo.focus {
        rank[i] := RANK_FOCUS;
        level := level + [i];
      }
    }
    if |level| > 0 {
      var near := Neighbours(repo, level);
      var hop1 := Mark(rank, near, RANK_HOP1);
      assert forall i: nat :: i in hop1 <==> i < n && repo.Hop1(i);
      var callers := CallersOf(repo, hop1);
      assert forall i | 0 <= i < n :: i in callers <==> exists h | 0 <= h < n :: repo.Hop1(h) && repo.Calls(i, h);
      var _ := Mark(rank, callers, RANK_HOP2);
    } else {
      assert forall i | 0 <= i < n :: !repo.InFocus(i);
    }
    ranks := rank[..];
    order := SortByRank(ranks);
  }
}
