/** Walks in a graph given by successor lists, and the sets that a bounded number of steps can reach. */
module Reachability {
  import opened Collections

  type Adj<T> = map<T, seq<T>>

  function Succ<T(==)>(adj: Adj<T>, x: T): seq<T> {
    if x in adj then adj[x] else []
  }

  /** Consecutive nodes are joined by an edge. */
  ghost predicate Walk<T>(adj: Adj<T>, p: seq<T>) {
    |p| > 0 && forall i | 0 <= i < |p| - 1 :: p[i + 1] in Succ(adj, p[i])
  }

  function Image<T(==)>(adj: Adj<T>, s: set<T>): set<T> {
    set x, y | x in s && y in Succ(adj, x) :: y
  }

  /** Everything within `k` steps of the seeds. */
  ghost function Level<T>(adj: Adj<T>, seeds: set<T>, k: nat): set<T> {
    if k == 0 then seeds else Level(adj, seeds, k - 1) + Image(adj, Level(adj, seeds, k - 1))
  }

  /** A walk of at most `k` edges from a seed to `y`. */
  ghost predicate WalksTo<T(!new)>(adj: Adj<T>, seeds: set<T>, k: nat, y: T) {
    exists p :: Walk(adj, p) && p[0] in seeds && p[|p| - 1] == y && |p| <= k + 1
  }

  lemma WalkGrows<T(!new)>(adj: Adj<T>, p: seq<T>, y: T)
    requires Walk(adj, p) && y in Succ(adj, p[|p| - 1])
    ensures Walk(adj, p + [y])
  {
  }

  lemma WalkSplits<T(!new)>(adj: Adj<T>, p: seq<T>)
    requires Walk(adj, p) && |p| > 1
    ensures Walk(adj, p[..|p| - 1]) && p[|p| - 1] in Succ(adj, p[|p| - 2])
  {
    assert p[|p| - 2 + 1] in Succ(adj, p[|p| - 2]);
  }

  /** `Level` is exactly what the walks reach. */
  lemma {:induction false} LevelIsWalks<T(!new)>(adj: Adj<T>, seeds: set<T>, k: nat, y: T)
    ensures y in Level(adj, seeds, k) <==> WalksTo(adj, seeds, k, y)
  {
    if k == 0 {
      if y in seeds {
        assert Walk(adj, [y]);
      }
    } else {
      if y in Level(adj, seeds, k) {
        LevelHasWalk(adj, seeds, k, y);
      }
      if WalksTo(adj, seeds, k, y) {
        var p :| Walk(adj, p) && p[0] in seeds && p[|p| - 1] == y && |p| <= k + 1;
        WalkIsInLevel(adj, seeds, k, p);
      }
    }
  }

  lemma {:induction false} LevelHasWalk<T(!new)>(adj: Adj<T>, seeds: set<T>, k: nat, y: T)
    requires y in Level(adj, seeds, k)
    ensures WalksTo(adj, seeds, k, y)
  {
    hide WalksTo, Walk, Image, Succ;
    if k == 0 {
      NoStep(adj, seeds, y);
    } else if y in Level(adj, seeds, k - 1) {
      LevelHasWalk(adj, seeds, k - 1, y);
      WalksFurther(adj, seeds, k - 1, y);
    } else {
      var x := ImageComesFrom(adj, Level(adj, seeds, k - 1), y);
      LevelHasWalk(adj, seeds, k - 1, x);
      OneStepMore(adj, seeds, k - 1, x, y);
    }
  }

  lemma ImageComesFrom<T>(adj: Adj<T>, s: set<T>, y: T) returns (x: T)
    requires y in Image(adj, s)
    ensures x in s && y in Succ(adj, x)
  {
    x :| x in s && y in Succ(adj, x);
  }

  lemma NoStep<T(!new)>(adj: Adj<T>, seeds: set<T>, y: T)
    requires y in seeds
    ensures WalksTo(adj, seeds, 0, y)
  {
    assert Walk(adj, [y]);
  }

  lemma WalksFurther<T(!new)>(adj: Adj<T>, seeds: set<T>, k: nat, y: T)
    requires WalksTo(adj, seeds, k, y)
    ensures WalksTo(adj, seeds, k + 1, y)
  {
  }

  lemma OneStepMore<T(!new)>(adj: Adj<T>, seeds: set<T>, k: nat, x: T, y: T)
    requires WalksTo(adj, seeds, k, x) && y in Succ(adj, x)
    ensures WalksTo(adj, seeds, k + 1, y)
  {
    var p :| Walk(adj, p) && p[0] in seeds && p[|p| - 1] == x && |p| <= k + 1;
    var longer := p + [y];
    WalkGrows(adj, p, y);
    assert longer[0] == p[0] && longer[|longer| - 1] == y && Walk(adj, longer);
  }

  lemma {:induction false} WalkIsInLevel<T(!new)>(adj: Adj<T>, seeds: set<T>, k: nat, p: seq<T>)
    requires Walk(adj, p) && p[0] in seeds && |p| <= k + 1
    ensures p[|p| - 1] in Level(adj, seeds, k)
  {
    if k > 0 {
      if |p| == 1 {
        WalkIsInLevel(adj, seeds, k - 1, p);
      } else {
        WalkSplits(adj, p);
        WalkIsInLevel(adj, seeds, k - 1, p[..|p| - 1]);
      }
    }
  }

  lemma {:induction false} LevelGrows<T(!new)>(adj: Adj<T>, seeds: set<T>, j: nat, k: nat)
    requires j <= k
    ensures Level(adj, seeds, j) <= Level(adj, seeds, k)
  {
    if j < k {
      LevelGrows(adj, seeds, j, k - 1);
    }
  }

  /** Once a step adds nothing, no further step does. */
  lemma {:induction false} LevelStops<T(!new)>(adj: Adj<T>, seeds: set<T>, j: nat, k: nat)
    requires j <= k && Level(adj, seeds, j + 1) == Level(adj, seeds, j)
    ensures Level(adj, seeds, k) == Level(adj, seeds, j)
  {
    if j < k {
      LevelStops(adj, seeds, j, k - 1);
    }
  }

  // ---- the two directions of one edge relation ----

  /** Each lists, with the same multiplicity, what the other lists backwards. */
  ghost predicate Transposed<T(!new)>(adj: Adj<T>, back: Adj<T>) {
    forall a, b :: TransposedAt(adj, back, a, b)
  }

  ghost predicate TransposedAt<T>(adj: Adj<T>, back: Adj<T>, a: T, b: T) {
    multiset(Succ(adj, a))[b] == multiset(Succ(back, b))[a]
  }

  lemma ReverseWalk<T(!new)>(adj: Adj<T>, back: Adj<T>, p: seq<T>)
    requires Transposed(adj, back) && Walk(adj, p)
    ensures Walk(back, Reverse(p))
  {
    var r := Reverse(p);
    forall i | 0 <= i < |r| - 1
      ensures r[i + 1] in Succ(back, r[i])
    {
      var j := |p| - 2 - i;
      assert p[j + 1] in Succ(adj, p[j]);
      assert TransposedAt(adj, back, p[j], p[j + 1]);
    }
  }

  lemma OneWay<T(!new)>(adj: Adj<T>, back: Adj<T>, k: nat, x: T, y: T)
    requires Transposed(adj, back) && y in Level(adj, {x}, k)
    ensures x in Level(back, {y}, k)
  {
    LevelHasWalk(adj, {x}, k, y);
    var p :| Walk(adj, p) && p[0] in {x} && p[|p| - 1] == y && |p| <= k + 1;
    ReverseWalk(adj, back, p);
    WalkIsInLevel(back, {y}, k, Reverse(p));
  }

  /** `y` is within `k` steps of `x` exactly when `x` is within `k` steps back from `y`. */
  lemma ForwardIsBackward<T(!new)>(adj: Adj<T>, back: Adj<T>, k: nat, x: T, y: T)
    requires Transposed(adj, back)
    ensures y in Level(adj, {x}, k) <==> x in Level(back, {y}, k)
  {
    if y in Level(adj, {x}, k) {
      OneWay(adj, back, k, x, y);
    }
    if x in Level(back, {y}, k) {
      assert Transposed(back, adj) by {
        forall a, b
          ensures TransposedAt(back, adj, a, b)
        {
          assert TransposedAt(adj, back, b, a);
        }
      }
      OneWay(back, adj, k, y, x);
    }
  }
}
