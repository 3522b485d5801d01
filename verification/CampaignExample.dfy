/**
 * Reachable stores in which a call leaves a node where the rollup rule would not put it: one for each kind of
 * call that `Disturbs` names.
 *
 * The walk, one protocol at a time:
 * 1. create a campaign and plan its root (row 0);
 * 2. decompose the root into rows 1 and 2, where row 1 depends on row 2;
 * 3. plan row 1 and decompose it into row 3;
 * 4. plan row 3, and let the planner reject it: rows 3, 1 and 0 are blocked;
 * 5. retry row 1, then row 3: row 1 is ready, with a child that is ready.
 *
 * From there a replan of row 3 (after step 4), a second decomposition of row 1 (between the retries), a
 * rejected plan of row 1, and a failure of row 2 each leave a node unsettled.
 */
module CampaignExample {
  import opened Outcomes
  import opened CampaignRules
  import opened CampaignTables
  import opened CampaignProtocols
  import opened CampaignInvariants
  import opened CampaignSafety
  import opened CampaignRuns
  import opened CampaignRollup
  import opened CampaignWalk

  /** The four rows in their places, in the given states; `kind` is row 2's. */
  ghost predicate Shape(db: Db, kind: TaskKind, states: seq<TaskState>) {
    && |db.tasks| == |states| == 4
    && db.tasks[0].parent == None && db.tasks[1].parent == Some(0) && db.tasks[2].parent == Some(0) && db.tasks[3].parent == Some(1)
    && db.tasks[0].kind.Objective? && db.tasks[1].kind.Interior? && db.tasks[2].kind == kind && db.tasks[3].kind.Interior?
    && db.tasks[1].dependsOn == [2] && db.tasks[2].dependsOn == []
    && db.tasks[0].state == states[0] && db.tasks[1].state == states[1]
    && db.tasks[2].state == states[2] && db.tasks[3].state == states[3]
  }

  lemma ShapeMoves(db: Db, db': Db, kind: TaskKind, states: seq<TaskState>, id: TaskId, to: TaskState)
    requires Shape(db, kind, states) && MovedTo(db, db', id, to) && id < 4
    ensures Shape(db', kind, states[id := to]) && SameRows(db, db')
  {
  }

  lemma KidsOfFour(db: Db, kind: TaskKind, states: seq<TaskState>)
    requires Shape(db, kind, states)
    ensures Kids(db, 0) == [1, 2] && Kids(db, 1) == [3] && Kids(db, 2) == [] && Kids(db, 3) == []
    ensures KidStates(db, 0) == [states[1], states[2]] && KidStates(db, 1) == [states[3]]
    ensures KidStates(db, 2) == [] && KidStates(db, 3) == []
  {
    hide Kids, KidStates;
    KidsOfOne(db, kind, states, 0);
    KidsOfOne(db, kind, states, 1);
    KidsOfOne(db, kind, states, 2);
    KidsOfOne(db, kind, states, 3);
    StatesOfThese(db, 0, [1, 2], [states[1], states[2]]);
    StatesOfThese(db, 1, [3], [states[3]]);
    StatesOfThese(db, 2, [], []);
    StatesOfThese(db, 3, [], []);
  }

  lemma StatesOfThese(db: Db, p: TaskId, kids: seq<TaskId>, states: seq<TaskState>)
    requires Kids(db, p) == kids && |states| == |kids|
    requires forall k | 0 <= k < |kids| :: kids[k] < |db.tasks| && db.tasks[kids[k]].state == states[k]
    ensures KidStates(db, p) == states
  {
  }

  lemma KidsOfOne(db: Db, kind: TaskKind, states: seq<TaskState>, p: TaskId)
    requires Shape(db, kind, states)
    ensures Kids(db, p) == if p == 0 then [1, 2] else if p == 1 then [3] else []
  {
    assert KidsBelow(db.tasks, p, 0) == [];
    assert KidsBelow(db.tasks, p, 1) == [];
    assert KidsBelow(db.tasks, p, 2) == if p == 0 then [1] else [];
    assert KidsBelow(db.tasks, p, 3) == if p == 0 then [1, 2] else [];
  }

  lemma PairRollup(a: TaskState, b: TaskState)
    ensures a.Blocked? ==> Rollup(Decomposed, [a]) == Some(Blocked)
    ensures (a.Blocked? || b.Blocked?) && a.IsLive() && b.IsLive() ==> Rollup(Decomposed, [a, b]) == Some(Blocked) && Rollup(Blocked, [a, b]) == None
    ensures a.Blocked? ==> Rollup(Blocked, [a]) == None
    ensures (a.Ready? || a.Decomposing?) && (b.Ready? || b.Running? || b.Decomposing?) ==>
      Rollup(Decomposed, [a, b]) == None && Rollup(Blocked, [a, b]) == Some(Decomposed)
    ensures Rollup(Blocked, []) == None
  {
    assert a in [a, b] && b in [a, b] && a in [a];
  }

  /** Every node of the four is at its fixpoint, when row 0's children and row 1's say so. */
  lemma FourAreSettled(db: Db, kind: TaskKind, states: seq<TaskState>)
    requires Shape(db, kind, states)
    requires Rollup(states[0], [states[1], states[2]]).None? && Rollup(states[1], [states[3]]).None?
    requires Rollup(states[2], []).None? && Rollup(states[3], []).None?
    ensures AllSettled(db)
  {
    KidsOfFour(db, kind, states);
    assert Settled(db, 0) && Settled(db, 1) && Settled(db, 2) && Settled(db, 3);
  }

  // ---- the walk ----

  lemma Divided() returns (db: Db)
    ensures OnWalk(db) && Shape(db, Interior, [Decomposed, Decomposed, Ready, Ready])
  {
    hide Inv, Reachable, OnWalk, Shape, IsNewKid, Kids;
    var db1 := WalkStarts();
    var db2 := PlanStarts(db1, 0);
    NoKidsOfRoot(db2);
    var deps: seq<seq<nat>> := [[2], []];
    var _, db3 := Splits(db2, 0, deps);
    FirstKids(db3);
    db := ChildDivided(db3);
  }

  lemma NoKidsOfRoot(db: Db)
    requires |db.tasks| == 1 && db.tasks[0].parent.None?
    ensures Kids(db, 0) == []
  {
    assert KidsBelow(db.tasks, 0, 0) == [];
  }

  lemma FirstKids(db: Db)
    requires |db.tasks| == 3
    requires forall k | 0 <= k < 2 :: IsNewKid(db.tasks[1 + k], 0, [[2], []][k], 1)
    ensures IsNewKid(db.tasks[1], 0, [2], 1) && IsNewKid(db.tasks[2], 0, [], 1)
  {
    assert IsNewKid(db.tasks[1 + 0], 0, [[2], []][0], 1) && IsNewKid(db.tasks[1 + 1], 0, [[2], []][1], 1);
  }

  lemma ChildDivided(db3: Db) returns (db: Db)
    requires OnWalk(db3) && |db3.tasks| == 3 && db3.tasks[0].state.Decomposed? && db3.tasks[0].kind.Objective?
    requires db3.tasks[0].parent == None && IsNewKid(db3.tasks[1], 0, [2], 1) && IsNewKid(db3.tasks[2], 0, [], 1)
    ensures OnWalk(db) && Shape(db, Interior, [Decomposed, Decomposed, Ready, Ready])
  {
    hide Inv, Reachable;
    var db4 := PlanStarts(db3, 1);
    FreshNode(db4, 1);
    var deps: seq<seq<nat>> := [[]];
    var _, db5 := Splits(db4, 1, deps);
    assert IsNewKid(db5.tasks[3 + 0], 1, deps[0], 3);
    db := db5;
  }

  /** A childless row below the root of a store of three rows. */
  lemma FreshNode(db: Db, id: TaskId)
    requires OnWalk(db) && |db.tasks| == 3 && id == 1
    requires db.tasks[0].parent == None && db.tasks[1].parent == Some(0) && db.tasks[2].parent == Some(0)
    ensures Kids(db, id) == [] && |db.tasks[id].path| == 2
  {
    hide Inv, Reachable;
    DepthOf(db, 0);
    DepthOf(db, 1);
    assert KidsBelow(db.tasks, 1, 0) == [] && KidsBelow(db.tasks, 1, 1) == [] && KidsBelow(db.tasks, 1, 2) == [];
  }

  lemma Depths(db: Db, kind: TaskKind, states: seq<TaskState>)
    requires OnWalk(db) && Shape(db, kind, states)
    ensures |db.tasks[0].path| == 1 && |db.tasks[1].path| == |db.tasks[2].path| == 2 && |db.tasks[3].path| == 3
    ensures db.tasks[1].Ordinal() == 1 && db.tasks[2].Ordinal() == 2
  {
    hide Inv, Reachable;
    DepthOf(db, 0);
    DepthOf(db, 1);
    DepthOf(db, 2);
    DepthOf(db, 3);
    KidsOfFour(db, kind, states);
    OrdinalOfKid(db, 0, 0);
    OrdinalOfKid(db, 0, 1);
  }

  /** What a committed call leaves, when it has only moved states. */
  lemma StaysOnWalk(db: Db, db': Db, op: Op)
    requires OnWalk(db) && Apply(db, op, 0) == Ok(db') && Modest(db'.attempts)
    requires SameRows(db, db')
    ensures OnWalk(db')
  {
    hide Inv, Reachable;
    Walks(db, op, 0);
  }

  /** Step 4. */
  lemma Rejected() returns (db: Db)
    ensures OnWalk(db) && Shape(db, Interior, [Blocked, Blocked, Ready, Blocked])
  {
    hide Inv, Reachable, OnWalk, Modest, SameRows, MovedTo;
    var db1 := Divided();
    var db2 := PlanStarts(db1, 3);
    ShapeMoves(db1, db2, Interior, [Decomposed, Decomposed, Ready, Ready], 3, Decomposing);
    var op, db3 := CampaignWalk.Rejects(db2, 3);
    ShapeMoves(db2, db3, Interior, [Decomposed, Decomposed, Ready, Decomposing], 3, Blocked);
    db := BlockedUpward(db3);
    SameRowsThen(db2, db3, db);
    StaysOnWalk(db2, db, op);
  }

  lemma BlockedUpward(db: Db) returns (db': Db)
    requires Inv(db) && Rooted(db) && Shape(db, Interior, [Decomposed, Decomposed, Ready, Blocked])
    ensures RollupFrom(db, Some(1), 0) == Ok(db') && Shape(db', Interior, [Blocked, Blocked, Ready, Blocked])
    ensures db'.attempts == db.attempts && SameRows(db, db')
  {
    hide Inv, Rollup, KidStates, Kids, SameRows, MovedTo;
    PairRollup(Blocked, Ready);
    KidsOfFour(db, Interior, [Decomposed, Decomposed, Ready, Blocked]);
    var db1 := RollupGoesOn(db, 1, Blocked, 0);
    ShapeMoves(db, db1, Interior, [Decomposed, Decomposed, Ready, Blocked], 1, Blocked);
    KidsOfFour(db1, Interior, [Decomposed, Blocked, Ready, Blocked]);
    db' := RollupGoesOn(db1, 0, Blocked, 0);
    ShapeMoves(db1, db', Interior, [Decomposed, Blocked, Ready, Blocked], 0, Blocked);
    SameRowsThen(db, db1, db');
  }

  /** The first retry of step 5. */
  lemma Retried() returns (db: Db)
    ensures OnWalk(db) && Shape(db, Interior, [Decomposed, Ready, Ready, Blocked])
  {
    hide Inv, Reachable, OnWalk, Modest, SameRows, MovedTo;
    var db1 := Rejected();
    var db2 := Retries(db1, 1);
    ShapeMoves(db1, db2, Interior, [Blocked, Blocked, Ready, Blocked], 1, Ready);
    PairRollup(Ready, Ready);
    KidsOfFour(db2, Interior, [Blocked, Ready, Ready, Blocked]);
    db := RollupGoesOn(db2, 0, Decomposed, 0);
    ShapeMoves(db2, db, Interior, [Blocked, Ready, Ready, Blocked], 0, Decomposed);
    assert RollupFrom(db, None, 0) == Ok(db);
    SameRowsThen(db1, db2, db);
    StaysModest(db1);
    StaysOnWalk(db1, db, RetryOp(1, User));
  }

  lemma StaysModest(db: Db)
    requires OnWalk(db)
    ensures Modest(db.attempts)
  {
  }

  /** The second retry of step 5. */
  lemma Reopened() returns (db: Db)
    ensures OnWalk(db) && Shape(db, Interior, [Decomposed, Ready, Ready, Ready])
  {
    hide Inv, Reachable, OnWalk, Modest, SameRows, MovedTo;
    var db1 := Retried();
    db := Retries(db1, 3);
    ShapeMoves(db1, db, Interior, [Decomposed, Ready, Ready, Blocked], 3, Ready);
    RollupStops(db, 1, 0);
    StaysModest(db1);
    StaysOnWalk(db1, db, RetryOp(3, User));
  }

  // ---- the four calls ----

  /** A reachable store with every node settled, in which the call commits and leaves some node unsettled. */
  ghost predicate Strands(db: Db, op: Op) {
    && Reachable(db) && Inv(db) && AllSettled(db)
    && Apply(db, op, 0).Ok? && Disturbs(db, op) && !AllSettled(Apply(db, op, 0).value)
  }

  lemma Stranding(db: Db, op: Op)
    requires OnWalk(db) && AllSettled(db) && Apply(db, op, 0).Ok? && Disturbs(db, op)
    ensures Strands(db, op)
  {
    hide Reachable, Disturbs, AllSettled;
    RollupIsExact(db, op, 0);
  }

  /** Replanning the only stuck child of a blocked parent: the parent stays blocked with nothing stuck below it. */
  lemma ReplanStrandsParent() returns (db: Db, op: Op)
    ensures op.ReplanOp? && Strands(db, op)
  {
    hide Inv, Reachable, AllSettled, Strands, Rollup, Kids, Replan, Shape;
    db := Rejected();
    op := ReplanOp(3, User);
    RejectedIsSettled(db);
    LoneReplanGoes(db, 3);
    LoneStuckChild(db);
    Stranding(db, op);
  }

  lemma RejectedIsSettled(db: Db)
    requires Shape(db, Interior, [Blocked, Blocked, Ready, Blocked])
    ensures AllSettled(db)
  {
    PairRollup(Blocked, Ready);
    hide Rollup, AllSettled;
    ReadyIsSettled();
    FourAreSettled(db, Interior, [Blocked, Blocked, Ready, Blocked]);
  }

  lemma ReadyIsSettled()
    ensures forall s: TaskState, children | !s.Decomposed? && !s.Blocked? :: Rollup(s, children).None?
  {
  }

  lemma LoneStuckChild(db: Db)
    requires Shape(db, Interior, [Blocked, Blocked, Ready, Blocked])
    ensures OnlyStuckChild(db, 3)
  {
    assert forall c: TaskId :: !(IsKid(db, 1, c) && c != 3);
  }

  /** A blocked node with nothing below it can be replanned. */
  lemma LoneReplanGoes(db: Db, id: TaskId)
    requires OnWalk(db) && Shape(db, Interior, [Blocked, Blocked, Ready, Blocked]) && id == 3
    ensures Replan(db, id, User, 0).Ok?
  {
    hide Inv, Reachable, Subtree;
    Depths(db, Interior, [Blocked, Blocked, Ready, Blocked]);
    SubtreeMembers(db, id);
    assert forall k | 0 <= k < |Subtree(db, id)| :: Subtree(db, id)[k] in Subtree(db, id);
    SkipsItself(db, id, Subtree(db, id));
    Transits(db, id, Decomposing, User, 0);
  }

  lemma {:induction false} SkipsItself(db: Db, id: TaskId, ids: seq<TaskId>)
    requires id < |db.tasks| && forall k | 0 <= k < |ids| :: ids[k] == id
    ensures SupersedeEach(db, id, ids, 0) == Ok(db)
    decreases |ids|
  {
    if |ids| > 0 {
      SkipsItself(db, id, ids[1..]);
    }
  }

  /** A node in planning whose child has work left. */
  lemma PlannedOverOpenChild() returns (db: Db)
    ensures OnWalk(db) && Shape(db, Interior, [Decomposed, Decomposing, Ready, Ready])
  {
    hide Inv, Reachable;
    var db1 := Reopened();
    db := PlanStarts(db1, 1);
    ShapeMoves(db1, db, Interior, [Decomposed, Ready, Ready, Ready], 1, Decomposing);
  }

  /** In that store the node can be decomposed, and it can be cancelled. */
  lemma SplitGoes(db: Db) returns (op: Op, db': Db)
    requires OnWalk(db) && Shape(db, Interior, [Decomposed, Decomposing, Ready, Ready])
    ensures op.DecomposeOp? && op.task == 1 && Apply(db, op, 0) == Ok(db') && |db.tasks[1].path| == 2
  {
    hide Inv, Reachable, Kids, Apply;
    KidsOfFour(db, Interior, [Decomposed, Decomposing, Ready, Ready]);
    Depths(db, Interior, [Decomposed, Decomposing, Ready, Ready]);
    op, db' := Splits(db, 1, [[]]);
  }

  lemma CancelGoesHere(db: Db)
    requires OnWalk(db) && Shape(db, Interior, [Decomposed, Decomposing, Ready, Ready])
    ensures Cancel(db, 1, User, 0).Ok?
  {
    hide Inv, Reachable, Subtree, Cancel;
    forall i: TaskId | i < |db.tasks|
      ensures Allowed(db.tasks[i].state, Cancelled, db.tasks[i].kind, User)
    {
      assert i == 0 || i == 1 || i == 2 || i == 3;
    }
    CancelGoes(db, 1, 0);
  }

  /** Rejecting a plan of a node whose child has work left: it is blocked with nothing stuck below it. */
  lemma RejectionStrandsNode() returns (db: Db, op: Op)
    ensures op.PlanCloseOp? && Strands(db, op)
  {
    hide Inv, Reachable, AllSettled, Strands, Rollup, Kids, KidStates, PlanClose, RollupFrom;
    db := PlannedOverOpenChild();
    OpenIsSettled(db, Interior, [Decomposed, Decomposing, Ready, Ready]);
    var db1;
    op, db1 := CampaignWalk.Rejects(db, 1);
    RollupKeeps(db1, Some(0), 0);
    OpenChild(db, Interior, [Decomposed, Decomposing, Ready, Ready]);
    Stranding(db, op);
  }

  /** The root is decomposed and both its children have work left; the rest is not the rollup's to move. */
  lemma OpenIsSettled(db: Db, kind: TaskKind, states: seq<TaskState>)
    requires Shape(db, kind, states) && states[0].Decomposed?
    requires states[1].Ready? || states[1].Decomposing?
    requires states[2].Ready? || states[2].Running?
    requires states[3].Ready? || states[3].Blocked?
    ensures AllSettled(db)
  {
    PairRollup(states[1], states[2]);
    hide Rollup, AllSettled;
    ReadyIsSettled();
    FourAreSettled(db, kind, states);
  }

  lemma OpenChild(db: Db, kind: TaskKind, states: seq<TaskState>)
    requires Shape(db, kind, states) && states[3].Ready?
    ensures BlocksEarly(db, 1)
  {
    hide Kids, KidStates;
    KidsOfFour(db, kind, states);
    assert KidStates(db, 1) == [Ready];
    assert Ready in KidStates(db, 1);
  }

  /** Decomposing a node over a stuck child: it is decomposed although the rule would block it. */
  lemma SplitStrandsNode() returns (db: Db, op: Op)
    ensures op.DecomposeOp? && Strands(db, op)
  {
    hide Inv, Reachable, AllSettled, Strands, Rollup, Kids, Apply;
    var db1 := Retried();
    db := PlanStarts(db1, 1);
    var states := [Decomposed, Decomposing, Ready, Blocked];
    ShapeMoves(db1, db, Interior, [Decomposed, Ready, Ready, Blocked], 1, Decomposing);
    OpenIsSettled(db, Interior, states);
    KidsOfFour(db, Interior, states);
    Depths(db, Interior, states);
    var db2;
    op, db2 := Splits(db, 1, [[]]);
    assert Blocked in KidStates(db, 1);
    Stranding(db, op);
  }

  /** Row 2 is a leaf that its worker runs; row 1, with the smaller ordinal, is ready and depends on it. */
  lemma RunningLeaf(owner: Owner) returns (db: Db)
    ensures OnWalk(db) && Shape(db, Leaf, [Decomposed, Ready, Running, Ready]) && db.tasks[2].claimedBy == Some(owner)
  {
    hide Inv, Reachable, OnWalk;
    var db3 := ReadyLeaf();
    var db4 := Claims(db3, 2, owner);
    ShapeMoves(db3, db4, Leaf, [Decomposed, Ready, Ready, Ready], 2, Claimed);
    db := Starts(db4, 2, owner);
    ShapeMoves(db4, db, Leaf, [Decomposed, Ready, Claimed, Ready], 2, Running);
  }

  lemma ReadyLeaf() returns (db: Db)
    ensures OnWalk(db) && Shape(db, Leaf, [Decomposed, Ready, Ready, Ready])
  {
    hide Inv, Reachable, OnWalk, Kids;
    var db1 := Reopened();
    var db2 := PlanStarts(db1, 2);
    ShapeMoves(db1, db2, Interior, [Decomposed, Ready, Ready, Ready], 2, Decomposing);
    KidsOfFour(db2, Interior, [Decomposed, Ready, Decomposing, Ready]);
    db := MarksLeaf(db2, 2);
  }

  /** Failing a leaf whose ready dependent has a child with work left: the dependent is blocked over it. */
  lemma FailureStrandsDependent() returns (db: Db, op: Op)
    ensures op.FailOp? && Strands(db, op)
    ensures Shape(db, Leaf, [Decomposed, Ready, Running, Ready]) && op.task == 2 && OnWalk(db)
  {
    hide Inv, Reachable, AllSettled, Strands, Rollup, Kids, KidStates, Fail;
    db := RunningLeaf("worker");
    op := FailOp(2, "worker", false, true);
    var states := [Decomposed, Ready, Running, Ready];
    OpenIsSettled(db, Leaf, states);
    FailureGoes(db, 2, "worker", false, 0);
    OpenChild(db, Leaf, states);
    assert db.tasks[1].state.Ready? && 2 in db.tasks[1].dependsOn && BlocksEarly(db, 1);
    Stranding(db, op);
  }

  // ---- a claim that is refused ----

  /**
   * Row 2 is the only leaf, ready; a planner of row 1 sends the very key that the store mints for row 2 next.
   * Before that the claim commits, and after it the same claim ends in an error.
   */
  lemma PlannerTakesMintedKey() returns (before: Db, note: Op, db: Db, claim: Op)
    ensures Reachable(before) && Inv(before) && Reachable(db) && Inv(db) && Rooted(before) && Rooted(db)
    ensures note.PlanCloseOp? && note.task == 1 && Apply(before, note, 0) == Ok(db)
    ensures claim.ClaimOp? && Apply(before, claim, 0).Ok? && Apply(db, claim, 0) == Err(AlreadyApplied)
  {
    hide Inv, Reachable, OnWalk, Apply;
    before := PlannedBesideLeaf();
    note, db := AsksUnderKey(before, 1, MintedKey(before, 2, 0, 0));
    claim := ClaimOp(2, "driver", 60, {});
    ClaimOfLeaf(before, "driver");
    ClaimOfLeaf(db, "driver");
  }

  lemma PlannedBesideLeaf() returns (db: Db)
    ensures OnWalk(db) && Shape(db, Leaf, [Decomposed, Decomposing, Ready, Ready])
    ensures !PlannerHolds(db, MintedKey(db, 2, 0, 0))
  {
    hide Inv, Reachable;
    var db1 := ReadyLeaf();
    db := PlanStarts(db1, 1);
    ShapeMoves(db1, db, Leaf, [Decomposed, Ready, Ready, Ready], 1, Decomposing);
  }

  /** A planner asks for information under a key of its choice, which no attempt has. */
  lemma AsksUnderKey(db: Db, id: TaskId, key: IdemKey) returns (op: Op, db': Db)
    requires OnWalk(db) && id < |db.tasks| && db.tasks[id].state.Decomposing? && !db.tasks[id].kind.Leaf?
    requires key.task < |db.tasks| && key == MintedKey(db, key.task, 0, 0) && !PlannerHolds(db, key)
    ensures op.PlanCloseOp? && op.task == id && Rooted(db) && Apply(db, op, 0) == Ok(db')
    ensures Reachable(db) && Inv(db) && Reachable(db') && Inv(db') && Rooted(db')
    ensures PlannerHolds(db', key) && |db'.tasks| == |db.tasks|
    ensures forall i: TaskId | i < |db.tasks| && i != id :: db'.tasks[i] == db.tasks[i]
    ensures SameRow(db.tasks[id], db'.tasks[id])
  {
    hide Inv, Reachable, PlanClose, Transition, MintedKey, IdemExists, PlannerHolds;
    MintedMeetsPlannersOnly(db, key.task, 0, 0);
    op := PlanCloseOp(id, db.tasks[id].version, key, 0, AsksForInfo, true);
    AskUnfolds(db, id, key);
    db' := AskWrites(db.(attempts := db.attempts + [Attempt(id, Planning, key, None, NeedsInfo, 0)]), id, key);
    Walks(db, op, 0);
  }

  lemma AskWrites(noted: Db, id: TaskId, key: IdemKey) returns (db': Db)
    requires id < |noted.tasks| && noted.tasks[id].state.Decomposing? && !noted.tasks[id].kind.Leaf?
    requires |noted.attempts| > 0 && noted.attempts[|noted.attempts| - 1] == Attempt(id, Planning, key, None, NeedsInfo, 0)
    ensures Transition(noted, id, AwaitingApproval, Planner, 0) == Ok(db')
    ensures PlannerHolds(db', key) && |db'.tasks| == |noted.tasks|
    ensures forall i: TaskId | i < |noted.tasks| && i != id :: db'.tasks[i] == noted.tasks[i]
    ensures SameRow(noted.tasks[id], db'.tasks[id])
  {
    db' := Transition(noted, id, AwaitingApproval, Planner, 0).value;
  }

  lemma AskUnfolds(db: Db, id: TaskId, key: IdemKey)
    requires Rooted(db) && id < |db.tasks| && db.tasks[id].state.Decomposing? && !db.tasks[id].kind.Leaf? && !IdemExists(db, key)
    ensures PlanClose(db, id, db.tasks[id].version, key, 0, AsksForInfo, true, 0)
      == Transition(db.(attempts := db.attempts + [Attempt(id, Planning, key, None, NeedsInfo, 0)]), id, AwaitingApproval, Planner, 0)
  {
    hide IdemExists, Transition;
  }

  /** The only leaf, ready and free of dependencies, is all that a claim takes; its key decides the claim. */
  lemma ClaimOfLeaf(db: Db, owner: Owner)
    requires Inv(db) && Rooted(db) && |db.tasks| == 4
    requires db.tasks[2].kind.Leaf? && db.tasks[2].state.Ready? && db.tasks[2].dependsOn == []
    requires forall i: TaskId | i < |db.tasks| && i != 2 :: !db.tasks[i].kind.Leaf?
    ensures Apply(db, ClaimOp(2, owner, 60, {}), 0).Ok? <==> !PlannerHolds(db, MintedKey(db, 2, 0, 0))
    ensures Apply(db, ClaimOp(2, owner, 60, {}), 0).Err? ==> Apply(db, ClaimOp(2, owner, 60, {}), 0) == Err(AlreadyApplied)
  {
    hide Inv, ClaimEach, Claimable, Candidates;
    FreeLeafIsClaimable(db, 2);
    OnlyCandidate(db, 2);
    ClaimKeeps(db, 2, 0, owner, 60, 0);
    ClaimOfOne(db, 2, owner);
  }
}
