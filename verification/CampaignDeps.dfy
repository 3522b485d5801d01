/**
 * Which batches of children a decomposition may insert: those whose members can all be claimed in some
 * order, by the very count that the claim statement makes.
 */
module CampaignDeps {
  import opened Collections

  /** The listed members that are done; `deps` counts members from one, `done` from zero. */
  function DoneAmong(deps: seq<nat>, done: seq<nat>): set<nat> {
    set d | d in deps && d >= 1 && d - 1 in done
  }

  /** The claim condition: as many done dependencies as are listed. */
  predicate Claimable(deps: seq<nat>, done: seq<nat>) {
    |DoneAmong(deps, done)| == |deps|
  }

  ghost predicate RunsAt(deps: seq<seq<nat>>, order: seq<nat>, k: nat)
    requires k < |order| && order[k] < |deps|
  {
    Claimable(deps[order[k]], order[..k])
  }

  /** The members can be done in this order, each being claimable when its turn comes. */
  ghost predicate RunsIn(deps: seq<seq<nat>>, order: seq<nat>) {
    && Distinct(order)
    && (forall k | 0 <= k < |order| :: order[k] < |deps|)
    && forall k | 0 <= k < |order| :: RunsAt(deps, order, k)
  }

  ghost predicate Runnable(deps: seq<seq<nat>>) {
    exists order :: |order| == |deps| && RunsIn(deps, order)
  }

  // ---- counting ----

  lemma DoneIsListed(deps: seq<nat>, done: seq<nat>)
    ensures |DoneAmong(deps, done)| <= |deps|
    ensures Claimable(deps, done) ==> DoneAmong(deps, done) == ToSet(deps)
  {
    ListedCount(deps);
    SubsetCount(DoneAmong(deps, done), ToSet(deps));
  }

  lemma OrderIsBounded(order: seq<nat>, n: nat)
    requires Distinct(order) && forall k | 0 <= k < |order| :: order[k] < n
    ensures |order| <= n
    ensures |order| == n ==> forall x: nat | x < n :: x in order
  {
    BelowIs(n);
    ListedCount(order);
    SubsetCount(ToSet(order), Below(n));
    if |order| == n {
      forall x: nat | x < n
        ensures x in order
      {
        assert x in Below(n) && Below(n) == ToSet(order);
      }
    }
  }

  function Below(n: nat): set<nat> {
    if n == 0 then {} else Below(n - 1) + {n - 1}
  }

  lemma {:induction false} BelowIs(n: nat)
    ensures |Below(n)| == n && forall x: nat :: x in Below(n) <==> x < n
  {
    if n > 0 {
      BelowIs(n - 1);
    }
  }

  /** One more member done counts once for whoever lists it. */
  lemma OneMoreDone(deps: seq<nat>, done: seq<nat>, i: nat)
    requires i !in done
    ensures |DoneAmong(deps, done + [i])| == |DoneAmong(deps, done)| + (if i + 1 in deps then 1 else 0)
  {
    if i + 1 in deps {
      assert DoneAmong(deps, done + [i]) == DoneAmong(deps, done) + {i + 1};
    } else {
      assert DoneAmong(deps, done + [i]) == DoneAmong(deps, done);
    }
  }

  // ---- the check ----

  /** Every listed number names another member of the batch. */
  method InRange(deps: seq<seq<nat>>) returns (ok: bool)
    ensures ok <==> forall i, d | 0 <= i < |deps| && d in deps[i] :: 1 <= d <= |deps| && d != i + 1
  {
    for i := 0 to |deps|
      invariant forall k, d | 0 <= k < i && d in deps[k] :: 1 <= d <= |deps| && d != k + 1
    {
      for m := 0 to |deps[i]|
        invariant forall k | 0 <= k < m :: 1 <= deps[i][k] <= |deps| && deps[i][k] != i + 1
      {
        var d := deps[i][m];
        if d < 1 || d > |deps| || d == i + 1 {
          assert d in deps[i];
          return false;
        }
      }
    }
    return true;
  }

  /** What the drain has reached: open counts, the members drained, and those ready to be. */
  ghost predicate Draining(deps: seq<seq<nat>>, indeg: seq<nat>, order: seq<nat>, ready: seq<nat>) {
    && RunsIn(deps, order) && Counts(deps, indeg, order)
    && Distinct(ready) && (forall x | x in ready :: x < |deps| && x !in order && indeg[x] == 0)
    && forall j | 0 <= j < |deps| && indeg[j] == 0 :: j in order || j in ready
  }

  ghost predicate Counts(deps: seq<seq<nat>>, indeg: seq<nat>, order: seq<nat>) {
    |indeg| == |deps| && forall j | 0 <= j < |deps| :: indeg[j] == |deps[j]| - |DoneAmong(deps[j], order)|
  }

  /** Count `i` as done for everyone who lists it, and ready those that wait for nothing more. */
  method Drain(deps: seq<seq<nat>>, indeg: seq<nat>, ready: seq<nat>, i: nat) returns (indeg': seq<nat>, ready': seq<nat>)
    requires |indeg| == |deps| && forall j | 0 <= j < |deps| && i + 1 in deps[j] :: indeg[j] > 0
    ensures CountedDown(deps, indeg, indeg', i) && Readied(deps, indeg, indeg', ready, ready')
  {
    indeg', ready' := indeg, ready;
    for j := 0 to |deps|
      invariant |indeg'| == |deps| && ready <= ready'
      invariant forall x | 0 <= x < j :: if i + 1 in deps[x] then indeg'[x] + 1 == indeg[x] else indeg'[x] == indeg[x]
      invariant forall x | j <= x < |deps| :: indeg'[x] == indeg[x]
      invariant forall k | |ready| <= k < |ready'| :: ready'[k] < j && indeg[ready'[k]] > 0 && indeg'[ready'[k]] == 0
      invariant forall a, b | |ready| <= a < b < |ready'| :: ready'[a] < ready'[b]
      invariant forall x | 0 <= x < j && indeg[x] > 0 && indeg'[x] == 0 :: x in ready'
    {
      if i + 1 in deps[j] {
        indeg' := indeg'[j := indeg'[j] - 1];
        if indeg'[j] == 0 {
          ready' := ready' + [j];
          assert ready'[|ready'| - 1] == j;
        }
      }
    }
  }

  /** Kahn's algorithm over the batch: it accepts exactly the batches that can be run to the end. */
  method CheckDeps(deps: seq<seq<nat>>) returns (ok: bool)
    ensures ok <==> Runnable(deps)
  {
    ok := InRange(deps);
    if !ok {
      OutOfRangeNeverRuns(deps);
      return;
    }
    var n := |deps|;
    var indeg: seq<nat> := seq(n, i requires 0 <= i < n => |deps[i]|);
    var ready := Free(deps);
    ghost var order: seq<nat> := [];
    var drained := 0;
    StartDraining(deps, indeg, ready);
    while ready != []
      invariant Draining(deps, indeg, order, ready) && drained == |order| <= n
      decreases n - drained
    {
      var i := ready[|ready| - 1];
      ghost var waiting, before := ready, indeg;
      ready := ready[..|ready| - 1];
      drained := drained + 1;
      assert i in waiting;
      CanDrain(deps, indeg, order, i);
      indeg, ready := Drain(deps, indeg, ready, i);
      DrainKeeps(deps, before, order, waiting, indeg, ready);
      order := order + [i];
      OrderIsBounded(order, n);
    }
    ok := drained == n;
    if !ok {
      StuckNeverRuns(deps, indeg, order);
    }
  }

  method Free(deps: seq<seq<nat>>) returns (free: seq<nat>)
    ensures forall j: nat :: j in free <==> j < |deps| && deps[j] == []
    ensures Distinct(free)
  {
    free := [];
    for j := 0 to |deps|
      invariant forall x: nat :: x in free <==> x < j && deps[x] == []
      invariant Distinct(free)
    {
      if |deps[j]| == 0 {
        assert forall a | 0 <= a < |free| :: free[a] in free;
        free := free + [j];
      }
    }
  }

  lemma StartDraining(deps: seq<seq<nat>>, indeg: seq<nat>, ready: seq<nat>)
    requires |indeg| == |deps| && forall j | 0 <= j < |deps| :: indeg[j] == |deps[j]|
    requires Distinct(ready) && forall j: nat :: j in ready <==> j < |deps| && deps[j] == []
    ensures Draining(deps, indeg, [], ready)
  {
    forall j | 0 <= j < |deps|
      ensures DoneAmong(deps[j], []) == {}
    {
    }
  }

  /** Whoever lists a member that is not drained is still waiting. */
  lemma CanDrain(deps: seq<seq<nat>>, indeg: seq<nat>, order: seq<nat>, i: nat)
    requires Counts(deps, indeg, order) && i !in order
    ensures forall j | 0 <= j < |deps| && i + 1 in deps[j] :: indeg[j] > 0
  {
    forall j | 0 <= j < |deps| && i + 1 in deps[j]
      ensures indeg[j] > 0
    {
      DoneIsListed(deps[j], order);
      assert i + 1 in ToSet(deps[j]) && i + 1 !in DoneAmong(deps[j], order);
    }
  }

  /** `after` is `before` with `i` counted as done. */
  ghost predicate CountedDown(deps: seq<seq<nat>>, before: seq<nat>, after: seq<nat>, i: nat) {
    && |before| == |after| == |deps|
    && forall j | 0 <= j < |deps| :: if i + 1 in deps[j] then after[j] + 1 == before[j] else after[j] == before[j]
  }

  /** `more` continues `left`, ascending, with exactly the members whose count has just reached zero. */
  ghost predicate Readied(deps: seq<seq<nat>>, before: seq<nat>, after: seq<nat>, left: seq<nat>, more: seq<nat>) {
    && |before| == |after| == |deps| && left <= more
    && (forall k | |left| <= k < |more| :: more[k] < |deps| && before[more[k]] > 0 && after[more[k]] == 0)
    && (forall a, b | |left| <= a < b < |more| :: more[a] < more[b])
    && forall j | 0 <= j < |deps| && before[j] > 0 && after[j] == 0 :: j in more
  }

  lemma DrainKeeps(deps: seq<seq<nat>>, indeg: seq<nat>, order: seq<nat>, ready: seq<nat>, indeg': seq<nat>, ready': seq<nat>)
    requires Draining(deps, indeg, order, ready) && ready != []
    requires CountedDown(deps, indeg, indeg', ready[|ready| - 1])
    requires Readied(deps, indeg, indeg', ready[..|ready| - 1], ready')
    ensures Draining(deps, indeg', order + [ready[|ready| - 1]], ready')
  {
    var i := ready[|ready| - 1];
    var left := ready[..|ready| - 1];
    assert i in ready && ready == left + [i];
    DrainKeepsOrder(deps, order, i);
    DrainKeepsCounts(deps, indeg, order, indeg', i);
    ReadyStaysApart(deps, indeg, order, left, i, indeg', ready');
    forall j | 0 <= j < |deps| && indeg'[j] == 0
      ensures j in order + [i] || j in ready'
    {
      if indeg[j] == 0 && j in ready && j != i {
        assert j in left;
        var k :| 0 <= k < |left| && left[k] == j;
        assert ready'[k] == j;
      }
    }
  }

  lemma DrainKeepsCounts(deps: seq<seq<nat>>, indeg: seq<nat>, order: seq<nat>, indeg': seq<nat>, i: nat)
    requires Counts(deps, indeg, order) && CountedDown(deps, indeg, indeg', i) && i !in order
    ensures Counts(deps, indeg', order + [i])
  {
    forall j | 0 <= j < |deps|
      ensures indeg'[j] == |deps[j]| - |DoneAmong(deps[j], order + [i])|
    {
      OneMoreDone(deps[j], order, i);
    }
  }

  lemma DrainKeepsOrder(deps: seq<seq<nat>>, order: seq<nat>, i: nat)
    requires RunsIn(deps, order) && i < |deps| && i !in order && Claimable(deps[i], order)
    ensures RunsIn(deps, order + [i])
  {
    var order' := order + [i];
    forall k | 0 <= k < |order'|
      ensures RunsAt(deps, order', k)
    {
      assert order'[..k] == order[..k];
      if k < |order| {
        assert RunsAt(deps, order, k);
      } else {
        assert order[..k] == order;
      }
    }
  }

  /** Nobody is drained or readied twice: those readied now were still waiting. */
  lemma ReadyStaysApart(deps: seq<seq<nat>>, indeg: seq<nat>, order: seq<nat>, left: seq<nat>, i: nat, indeg': seq<nat>, ready': seq<nat>)
    requires Draining(deps, indeg, order, left + [i]) && i < |deps| && indeg[i] == 0
    requires CountedDown(deps, indeg, indeg', i) && Readied(deps, indeg, indeg', left, ready')
    ensures Distinct(ready') && forall x | x in ready' :: x < |deps| && x !in order + [i] && indeg'[x] == 0
  {
    var ready := left + [i];
    assert forall k | 0 <= k < |left| :: ready[k] == left[k] == ready'[k];
    assert forall k | 0 <= k < |left| :: ready[k] in ready;
    assert ready[|left|] == i;
    forall a, b | 0 <= a < b < |ready'|
      ensures ready'[a] != ready'[b]
    {
      assert a < |left| ==> indeg[ready'[a]] == 0;
    }
    forall x | x in ready'
      ensures x < |deps| && x !in order + [i] && indeg'[x] == 0
    {
      var k :| 0 <= k < |ready'| && ready'[k] == x;
      if k < |left| {
        assert ready[k] != ready[|left|];
      } else {
        DrainedIsZero(deps, indeg, order, x);
      }
    }
  }

  lemma DrainedIsZero(deps: seq<seq<nat>>, indeg: seq<nat>, order: seq<nat>, x: nat)
    requires RunsIn(deps, order) && Counts(deps, indeg, order) && x < |deps|
    ensures x in order ==> indeg[x] == 0
  {
    if x in order {
      var k :| 0 <= k < |order| && order[k] == x;
      LaterIsClaimable(deps, order, k);
    }
  }

  /** What was claimable at its turn still is. */
  lemma LaterIsClaimable(deps: seq<seq<nat>>, order: seq<nat>, k: nat)
    requires RunsIn(deps, order) && k < |order|
    ensures Claimable(deps[order[k]], order)
  {
    assert RunsAt(deps, order, k);
    MoreDone(deps[order[k]], order[..k], order);
  }

  lemma MoreDone(deps: seq<nat>, some: seq<nat>, more: seq<nat>)
    requires Claimable(deps, some) && forall x | x in some :: x in more
    ensures Claimable(deps, more)
  {
    DoneIsListed(deps, some);
    DoneIsListed(deps, more);
    assert DoneAmong(deps, some) <= DoneAmong(deps, more);
    SubsetCount(DoneAmong(deps, some), DoneAmong(deps, more));
  }

  /** In a run, whatever a member lists is another member, and earlier. */
  lemma RunIsInRange(deps: seq<seq<nat>>, order: seq<nat>, i: nat, d: nat)
    requires |order| == |deps| && RunsIn(deps, order) && i < |deps| && d in deps[i]
    ensures 1 <= d <= |deps| && d != i + 1
  {
    OrderIsBounded(order, |deps|);
    assert i in order;
    var k :| 0 <= k < |order| && order[k] == i;
    assert RunsAt(deps, order, k);
    DoneIsListed(deps[i], order[..k]);
    assert d in ToSet(deps[i]);
    var m :| 0 <= m < k && order[..k][m] == d - 1;
  }

  /** A batch with a number out of range, or a member that lists itself, cannot be run. */
  lemma OutOfRangeNeverRuns(deps: seq<seq<nat>>)
    requires exists i, d | 0 <= i < |deps| && d in deps[i] :: !(1 <= d <= |deps| && d != i + 1)
    ensures !Runnable(deps)
  {
    if Runnable(deps) {
      var order :| |order| == |deps| && RunsIn(deps, order);
      forall i, d | 0 <= i < |deps| && d in deps[i]
        ensures 1 <= d <= |deps| && d != i + 1
      {
        RunIsInRange(deps, order, i, d);
      }
    }
  }

  /** When nobody is ready, whoever is left can be in no run of the batch. */
  lemma StuckNeverRuns(deps: seq<seq<nat>>, indeg: seq<nat>, order: seq<nat>)
    requires Draining(deps, indeg, order, []) && |order| < |deps|
    ensures !Runnable(deps)
  {
    if Runnable(deps) {
      var run: seq<nat> :| |run| == |deps| && RunsIn(deps, run);
      RunIsDrained(deps, indeg, order, run, |run|);
      assert run == run[..|run|];
      assert ToSet(run) <= ToSet(order);
      ListedCount(run);
      ListedCount(order);
      SubsetCount(ToSet(run), ToSet(order));
    }
  }

  lemma {:induction false} RunIsDrained(deps: seq<seq<nat>>, indeg: seq<nat>, order: seq<nat>, run: seq<nat>, k: nat)
    requires Drained(deps, indeg, order) && RunsIn(deps, run) && k <= |run|
    ensures Within(run[..k], order)
  {
    if k > 0 {
      RunIsDrained(deps, indeg, order, run, k - 1);
      NextIsDrained(deps, indeg, order, run, k - 1);
      assert run[..k] == run[..k - 1] + [run[k - 1]];
    }
  }

  /** Nobody outside `order` is free of open dependencies. */
  ghost predicate Drained(deps: seq<seq<nat>>, indeg: seq<nat>, order: seq<nat>) {
    Counts(deps, indeg, order) && forall j | 0 <= j < |deps| && indeg[j] == 0 :: j in order
  }

  ghost predicate Within(some: seq<nat>, order: seq<nat>) {
    forall x | x in some :: x in order
  }

  lemma NextIsDrained(deps: seq<seq<nat>>, indeg: seq<nat>, order: seq<nat>, run: seq<nat>, k: nat)
    requires Drained(deps, indeg, order) && RunsIn(deps, run) && k < |run| && Within(run[..k], order)
    ensures run[k] in order
  {
    assert RunsAt(deps, run, k);
    ZeroOnceListedAreDone(deps, indeg, order, run[..k], run[k]);
  }

  lemma ZeroOnceListedAreDone(deps: seq<seq<nat>>, indeg: seq<nat>, order: seq<nat>, some: seq<nat>, x: nat)
    requires Counts(deps, indeg, order) && x < |deps| && Claimable(deps[x], some)
    requires Within(some, order)
    ensures indeg[x] == 0
  {
    MoreDone(deps[x], some, order);
  }
}
