/** The batch check and the claim statement count the same dependencies. */
module CampaignBatches {
  import opened CampaignTables
  import P = CampaignProtocols
  import Deps = CampaignDeps

  function Shifted(members: set<nat>, base: TaskId): set<TaskId> {
    set d | d in members && d >= 1 :: base + d - 1
  }

  lemma {:induction false} ShiftKeepsCount(members: set<nat>, base: TaskId)
    requires forall d | d in members :: d >= 1
    ensures |Shifted(members, base)| == |members|
    decreases |members|
  {
    if members == {} {
      assert Shifted(members, base) == {};
    } else {
      var d :| d in members;
      ShiftKeepsCount(members - {d}, base);
      OneShifted(members, base, d);
    }
  }

  lemma OneShifted(members: set<nat>, base: TaskId, d: nat)
    requires d in members && forall x | x in members :: x >= 1
    ensures base + d - 1 !in Shifted(members - {d}, base)
    ensures Shifted(members, base) == Shifted(members - {d}, base) + {base + d - 1}
  {
    forall x | x in Shifted(members, base)
      ensures x in Shifted(members - {d}, base) || x == base + d - 1
    {
      var y :| y in members && y >= 1 && x == base + y - 1;
      assert y == d || y in members - {d};
    }
  }

  /**
   * For a member of a batch whose rows start at `base`, the claim's condition on its dependencies is the
   * batch check's, over the members that are done.
   */
  lemma SameCount(db: Db, base: TaskId, deps: seq<seq<nat>>, i: nat, done: seq<nat>)
    requires i < |deps| && base + |deps| <= |db.tasks| && P.DepsInBatch(deps)
    requires db.tasks[base + i].dependsOn == P.BatchIds(deps[i], base)
    requires forall j: nat | j < |deps| :: j in done <==> db.tasks[base + j].state.Done?
    ensures P.Claimable(db, base + i) <==>
      db.tasks[base + i].kind.Leaf? && db.tasks[base + i].state.Ready? && Deps.Claimable(deps[i], done)
  {
    ShiftKeepsCount(Deps.DoneAmong(deps[i], done), base);
    DoneAreShifted(db, base, deps, i, done);
  }

  lemma DoneAreShifted(db: Db, base: TaskId, deps: seq<seq<nat>>, i: nat, done: seq<nat>)
    requires i < |deps| && base + |deps| <= |db.tasks| && P.DepsInBatch(deps)
    requires forall j: nat | j < |deps| :: j in done <==> db.tasks[base + j].state.Done?
    ensures (set d | d in P.BatchIds(deps[i], base) && d < |db.tasks| && db.tasks[d].state.Done?)
      == Shifted(Deps.DoneAmong(deps[i], done), base)
  {
    var listed := P.BatchIds(deps[i], base);
    var members := Deps.DoneAmong(deps[i], done);
    var found := set d | d in listed && d < |db.tasks| && db.tasks[d].state.Done?;
    forall x | x in found
      ensures x in Shifted(members, base)
    {
      var k :| 0 <= k < |listed| && listed[k] == x;
      assert deps[i][k] in deps[i];
      assert x == base + (deps[i][k] - 1) && deps[i][k] - 1 in done;
      assert deps[i][k] in members;
    }
    forall x | x in Shifted(members, base)
      ensures x in found
    {
      var d :| d in members && d >= 1 && x == base + d - 1;
      var k :| 0 <= k < |deps[i]| && deps[i][k] == d;
      assert listed[k] == base + d - 1 && listed[k] in listed;
      assert db.tasks[base + (d - 1)].state.Done?;
    }
    assert found == Shifted(members, base);
  }
}
