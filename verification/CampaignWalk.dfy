/**
 * Single steps of a run, each from any sound store in which it is allowed: what the call writes, row by row.
 * With these a reachable store can be walked to, one protocol at a time, without writing its tables out.
 */
module CampaignWalk {
  import opened Outcomes
  import opened Collections
  import opened CampaignRules
  import opened CampaignTables
  import opened CampaignProtocols
  import opened CampaignInvariants
  import opened CampaignSafety
  import opened CampaignRuns

  /** The policy of the walks: no node waits for a human. */
  const OPEN_POLICY := DEFAULT_POLICY.(approveLevels := [])

  /** What stays of a row while its state moves. */
  predicate SameRow(t: Task, t': Task) {
    SameIdentity(t, t') && t'.kind == t.kind && t'.attempts == t.attempts && t'.policy == t.policy
  }

  ghost predicate SameRows(db: Db, db': Db) {
    |db'.tasks| == |db.tasks| && forall i: TaskId | i < |db.tasks| :: SameRow(db.tasks[i], db'.tasks[i])
  }

  lemma SameRowsThen(a: Db, b: Db, c: Db)
    requires SameRows(a, b) && SameRows(b, c)
    ensures SameRows(a, c)
  {
  }

  ghost predicate MovedTo(db: Db, db': Db, id: TaskId, to: TaskState) {
    && |db'.tasks| == |db.tasks|
    && forall i: TaskId | i < |db.tasks| ::
      SameRow(db.tasks[i], db'.tasks[i]) && db'.tasks[i].state == if i == id then to else db.tasks[i].state
  }

  /** A store on a walk: one campaign under the open policy, and planners that spend nothing. */
  ghost predicate OnWalk(db: Db) {
    && Reachable(db) && Inv(db) && Rooted(db) && Plain(db)
  }

  ghost predicate Plain(db: Db) {
    && |db.tasks| > 0 && db.tasks[0].policy == Some(OPEN_POLICY)
    && (forall i: TaskId | i < |db.tasks| :: db.tasks[i].campaign == 0 && db.tasks[i].attempts == 0)
    && Modest(db.attempts)
  }

  /** No tokens spent, and every planner's key starts with a zero word. */
  ghost predicate Modest(attempts: seq<Attempt>) {
    forall a | 0 <= a < |attempts| :: attempts[a].tokens == 0 && (attempts[a].kind.Planning? ==> attempts[a].idem.task == 0)
  }

  lemma {:induction false} NothingSpent(db: Db, n: nat)
    requires Modest(db.attempts) && n <= |db.attempts|
    ensures PlanTokens(db, 0, n) == 0
  {
    if n > 0 {
      NothingSpent(db, n - 1);
    }
  }

  lemma {:induction false} NodesAreRows(tasks: seq<Task>, campaign: TaskId)
    ensures CampaignNodes(tasks, campaign) <= |tasks|
  {
    if |tasks| > 0 {
      NodesAreRows(tasks[..|tasks| - 1], campaign);
    }
  }

  /** A planner's key that nobody has used. */
  lemma {:induction false} FreshKey(attempts: seq<Attempt>) returns (key: IdemKey)
    ensures key.task == 0 && forall a | 0 <= a < |attempts| :: attempts[a].idem.position < key.position
  {
    if |attempts| == 0 {
      key := IdemKey(0, 0, 0, 0);
    } else {
      var last := attempts[|attempts| - 1].idem.position;
      var rest := FreshKey(attempts[..|attempts| - 1]);
      key := IdemKey(0, 0, 0, if last < rest.position then rest.position else last + 1);
    }
  }

  lemma FreshIsNew(db: Db, key: IdemKey)
    requires forall a | 0 <= a < |db.attempts| :: db.attempts[a].idem.position < key.position
    ensures !IdemExists(db, key)
  {
  }

  lemma Transits(db: Db, id: TaskId, to: TaskState, actor: ActorClass, now: int)
    requires id < |db.tasks| && Allowed(db.tasks[id].state, to, db.tasks[id].kind, actor)
    ensures Transition(db, id, to, actor, now).Ok? && MovedTo(db, Transition(db, id, to, actor, now).value, id, to)
    ensures Transition(db, id, to, actor, now).value.attempts == db.attempts
  {
  }

  lemma Walks(db: Db, op: Op, now: int)
    requires OnWalk(db) && Apply(db, op, now).Ok?
    ensures Reachable(Apply(db, op, now).value) && Inv(Apply(db, op, now).value) && Rooted(Apply(db, op, now).value)
  {
    hide Inv, Reachable;
    ReachableNext(db, op, now);
    SoundTree(Apply(db, op, now).value);
  }

  // ---- the rollup, one ancestor at a time ----

  lemma RollupStops(db: Db, p: TaskId, now: int)
    requires Rooted(db) && p < |db.tasks| && Rollup(db.tasks[p].state, KidStates(db, p)).None?
    ensures RollupFrom(db, Some(p), now) == Ok(db)
  {
  }

  lemma RollupGoesOn(db: Db, p: TaskId, next: TaskState, now: int) returns (db': Db)
    requires Inv(db) && p < |db.tasks| && !db.tasks[p].kind.Leaf? && Rollup(db.tasks[p].state, KidStates(db, p)) == Some(next)
    ensures Inv(db') && MovedTo(db, db', p, next) && db'.attempts == db.attempts
    ensures RollupFrom(db, Some(p), now) == RollupFrom(db', db.tasks[p].parent, now)
  {
    RollupIsAllowed(db.tasks[p].state, KidStates(db, p), db.tasks[p].kind);
    Transits(db, p, next, RollupPass, now);
    TransitionKeeps(db, p, next, RollupPass, now);
    db' := Transition(db, p, next, RollupPass, now).value;
  }

  // ---- creating and planning ----

  lemma EmptyIsReachable()
    ensures Reachable(EMPTY)
  {
    EmptyIsFine();
    assert Run(EMPTY, []) == EMPTY;
  }

  lemma WalkStarts() returns (db: Db)
    ensures OnWalk(db) && |db.tasks| == 1 && db.tasks[0] == NewRoot(0, Ready, OPEN_POLICY, 0)
  {
    EmptyIsReachable();
    hide Inv, Reachable;
    var op := CreateOp(User, false, Some(OPEN_POLICY), true);
    db := Apply(EMPTY, op, 0).value;
    ReachableNext(EMPTY, op, 0);
  }

  lemma PlanStarts(db: Db, id: TaskId) returns (db': Db)
    requires OnWalk(db) && id < |db.tasks| && db.tasks[id].state.Ready? && !db.tasks[id].kind.Leaf?
    ensures OnWalk(db') && MovedTo(db, db', id, Decomposing) && db'.attempts == db.attempts
  {
    hide Inv, Reachable;
    NothingSpent(db, |db.attempts|);
    assert PolicyOf(db, 0) == Ok(OPEN_POLICY);
    Transits(db, id, Decomposing, Planner, 0);
    Walks(db, PlanStartOp(id), 0);
    db' := Apply(db, PlanStartOp(id), 0).value;
  }

  /** A decomposition with a fresh key, the node's own version, and caps that the batch respects. */
  lemma Splits(db: Db, id: TaskId, deps: seq<seq<nat>>) returns (op: Op, db': Db)
    requires OnWalk(db) && id < |db.tasks| && db.tasks[id].state.Decomposing? && !db.tasks[id].kind.Leaf?
    requires |db.tasks[id].path| <= 6 && 1 <= |deps| && |Kids(db, id)| + |deps| <= 8 && DepsInBatch(deps)
    requires |db.tasks| + |deps| <= 200
    ensures op.DecomposeOp? && op.task == id && Apply(db, op, 0) == Ok(db') && OnWalk(db')
    ensures |db'.tasks| == |db.tasks| + |deps|
    ensures forall i: TaskId | i < |db.tasks| ::
      SameRow(db.tasks[i], db'.tasks[i]) && db'.tasks[i].state == if i == id then Decomposed else db.tasks[i].state
    ensures forall k | 0 <= k < |deps| ::
      IsNewKid(db'.tasks[|db.tasks| + k], id, deps[k], |db.tasks|)
  {
    hide Inv, Reachable, Apply, AddKids, Transition, MaxOrdinal, DepsInBatch, CampaignNodes, BatchIds, IdemExists;
    var key := FreshKey(db.attempts);
    FreshIsNew(db, key);
    op := DecomposeOp(id, db.tasks[id].version, key, 0, deps, true);
    var a := Attempt(id, Planning, key, None, Split, 0);
    var db1 := db.(attempts := db.attempts + [a]);
    PlanAttemptKeeps(db, a);
    NodesAreRows(db.tasks, 0);
    assert Kids(db1, id) == Kids(db, id);
    MaxOrdinalFrame(db, db1, Kids(db, id));
    var db2 := BatchWrites(db1, id, deps);
    SplitUnfolds(db, op, db1);
    Walks(db, op, 0);
    db' := Apply(db, op, 0).value;
    SplitRows(db, db2, db', id, deps);
  }

  /** The rows and attempts after a batch and the node's own transition. */
  lemma SplitRows(db: Db, db2: Db, db': Db, id: TaskId, deps: seq<seq<nat>>)
    requires Plain(db) && id < |db.tasks| <= |db2.tasks| == |db.tasks| + |deps| && db.tasks <= db2.tasks
    requires forall k | 0 <= k < |deps| :: IsNewKid(db2.tasks[|db.tasks| + k], id, deps[k], |db.tasks|)
    requires Transition(db2, id, Decomposed, Planner, 0) == Ok(db') && Modest(db2.attempts)
    ensures Plain(db') && |db'.tasks| == |db2.tasks|
    ensures forall i: TaskId | i < |db.tasks| ::
      SameRow(db.tasks[i], db'.tasks[i]) && db'.tasks[i].state == if i == id then Decomposed else db.tasks[i].state
    ensures forall k | 0 <= k < |deps| :: IsNewKid(db'.tasks[|db.tasks| + k], id, deps[k], |db.tasks|)
  {
    forall i: TaskId | |db.tasks| <= i < |db2.tasks|
      ensures db'.tasks[i].campaign == 0 && db'.tasks[i].attempts == 0
    {
      assert IsNewKid(db2.tasks[|db.tasks| + (i - |db.tasks|)], id, deps[i - |db.tasks|], |db.tasks|);
    }
  }

  /** A child that a batch has just put under `id`. */
  predicate IsNewKid(t: Task, id: TaskId, deps: seq<nat>, base: TaskId) {
    && t.parent == Some(id) && t.kind.Interior? && t.state.Ready? && t.dependsOn == BatchIds(deps, base)
    && t.campaign == 0 && t.attempts == 0
  }

  lemma BatchWrites(db: Db, id: TaskId, deps: seq<seq<nat>>) returns (db2: Db)
    requires Inv(db) && id < |db.tasks| && db.tasks[id].state.Decomposing? && !db.tasks[id].kind.Leaf? && db.tasks[id].campaign == 0
    requires |db.tasks[id].path| <= 6 && |Kids(db, id)| + |deps| <= 8 && DepsInBatch(deps)
    ensures MaxOrdinal(db, Kids(db, id)) == |Kids(db, id)|
    ensures AddKids(db, id, Ready, |Kids(db, id)|, |db.tasks|, deps, 0, 0) == Ok(db2)
    ensures |db2.tasks| == |db.tasks| + |deps| && db.tasks <= db2.tasks && db2.attempts == db.attempts
    ensures forall k | 0 <= k < |deps| :: IsNewKid(db2.tasks[|db.tasks| + k], id, deps[k], |db.tasks|)
    ensures Transition(db2, id, Decomposed, Planner, 0).Ok?
  {
    hide Inv, Kids, AddKids, MaxOrdinal, DepsInBatch, BatchFollows, BatchIds;
    BatchKeeps(db, id, deps, Ready, 0);
    db2 := AddKids(db, id, Ready, |Kids(db, id)|, |db.tasks|, deps, 0, 0).value;
    BatchGrows(db.tasks, db2.tasks, id, Ready, |Kids(db, id)|, |db.tasks|, deps, 0);
    forall k | 0 <= k < |deps|
      ensures IsNewKid(db2.tasks[|db.tasks| + k], id, deps[k], |db.tasks|)
    {
      BatchRow(db.tasks, db2.tasks, id, Ready, |Kids(db, id)|, |db.tasks|, deps, 0, k);
    }
  }

  lemma SplitUnfolds(db: Db, op: Op, db1: Db)
    requires OnWalk(db) && op.DecomposeOp? && op.task < |db.tasks|
    requires var t := db.tasks[op.task];
      t.state.Decomposing? && !t.kind.Leaf? && |t.path| <= 6 && op.expected == t.version && op.checked
    requires 1 <= |op.deps| && |Kids(db, op.task)| + |op.deps| <= 8 && DepsInBatch(op.deps)
    requires CampaignNodes(db.tasks, 0) + |op.deps| <= 200 && !IdemExists(db, op.key)
    requires db1 == db.(attempts := db.attempts + [Attempt(op.task, Planning, op.key, None, Split, op.tokens)])
    requires AddKids(db1, op.task, Ready, MaxOrdinal(db, Kids(db, op.task)), |db.tasks|, op.deps, 0, 0).Ok?
    ensures Apply(db, op, 0)
      == Transition(AddKids(db1, op.task, Ready, MaxOrdinal(db, Kids(db, op.task)), |db.tasks|, op.deps, 0, 0).value,
                    op.task, Decomposed, Planner, 0)
  {
    hide Inv, Reachable;
    assert PolicyOf(db, 0) == Ok(OPEN_POLICY);
  }

  /** The planner rejects the node: `db1` is the store with the node blocked, before the rollup. */
  lemma Rejects(db: Db, id: TaskId) returns (op: Op, db1: Db)
    requires OnWalk(db) && id < |db.tasks| && db.tasks[id].state.Decomposing? && !db.tasks[id].kind.Leaf?
    ensures op.PlanCloseOp? && op.task == id && op.result.Rejects?
    ensures Inv(db1) && Rooted(db1) && MovedTo(db, db1, id, Blocked) && Modest(db1.attempts)
    ensures Apply(db, op, 0) == RollupFrom(db1, db.tasks[id].parent, 0)
  {
    hide Inv, Reachable, RollupFrom, Transition;
    var key := FreshKey(db.attempts);
    op := PlanCloseOp(id, db.tasks[id].version, key, 0, PlanResult.Rejects, true);
    var a := Attempt(id, Planning, key, None, Reject, 0);
    var noted := db.(attempts := db.attempts + [a]);
    PlanAttemptKeeps(db, a);
    Transits(noted, id, Blocked, Planner, 0);
    TransitionKeeps(noted, id, Blocked, Planner, 0);
    db1 := Transition(noted, id, Blocked, Planner, 0).value;
    SoundTree(db1);
  }

  /** A blocked node is made ready: `db1` is the store before the rollup. */
  lemma Retries(db: Db, id: TaskId) returns (db1: Db)
    requires OnWalk(db) && id < |db.tasks| && db.tasks[id].state.Blocked? && !db.tasks[id].kind.Objective?
    ensures Inv(db1) && Rooted(db1) && MovedTo(db, db1, id, Ready) && db1.attempts == db.attempts
    ensures Apply(db, RetryOp(id, User), 0) == RollupFrom(db1, db.tasks[id].parent, 0)
  {
    hide Inv, Reachable, Transition, RollupFrom, MovedTo;
    Transits(db, id, Ready, User, 0);
    TransitionKeeps(db, id, Ready, User, 0);
    db1 := Transition(db, id, Ready, User, 0).value;
    SoundTree(db1);
  }

  // ---- a leaf's life ----

  ghost predicate BecameLeaf(db: Db, db': Db, id: TaskId) {
    && |db'.tasks| == |db.tasks| && id < |db.tasks|
    && db'.tasks[id].kind.Leaf? && db'.tasks[id].state.Ready?
    && forall i: TaskId | i < |db.tasks| ::
      SameIdentity(db.tasks[i], db'.tasks[i]) && (i != id ==> db'.tasks[i] == db.tasks[i])
  }

  lemma MarksLeaf(db: Db, id: TaskId) returns (db': Db)
    requires OnWalk(db) && id < |db.tasks| && db.tasks[id].state.Decomposing? && db.tasks[id].kind.Interior? && Kids(db, id) == []
    ensures OnWalk(db') && BecameLeaf(db, db', id)
  {
    hide Inv, Reachable, MarkLeaf, Transition, IdemExists, Kids;
    var key := FreshKey(db.attempts);
    FreshIsNew(db, key);
    var op := MarkLeafOp(id, db.tasks[id].version, key, 0, true);
    var noted := db.(attempts := db.attempts + [Attempt(id, Planning, key, None, Execute, 0)]);
    Transits(noted, id, Ready, Planner, 0);
    LeafUnfolds(db, id, key);
    Walks(db, op, 0);
    db' := Apply(db, op, 0).value;
  }

  lemma LeafUnfolds(db: Db, id: TaskId, key: IdemKey)
    requires Plain(db) && id < |db.tasks| && db.tasks[id].state.Decomposing? && db.tasks[id].kind.Interior? && Kids(db, id) == []
    requires !IdemExists(db, key)
    ensures var db2 := Transition(db.(attempts := db.attempts + [Attempt(id, Planning, key, None, Execute, 0)]), id, Ready, Planner, 0);
      && db2.Ok? && id < |db2.value.tasks|
      && MarkLeaf(db, id, db.tasks[id].version, key, 0, true, 0) == Ok(Put(db2.value, id, db2.value.tasks[id].(kind := Leaf)))
      && forall i: TaskId | i < |db.tasks| && i != id :: db2.value.tasks[i] == db.tasks[i]
  {
    hide IdemExists, Kids;
    assert PolicyOf(db, 0) == Ok(OPEN_POLICY);
  }

  /** The only leaf of the store, ready and with no dependency, is what a claim takes. */
  lemma OnlyCandidate(db: Db, id: TaskId)
    requires id < |db.tasks| && Claimable(db, id)
    requires forall i: TaskId | i < |db.tasks| && i != id :: !db.tasks[i].kind.Leaf?
    ensures Candidates(db, 2, {}) == [id]
  {
    var chosen := Candidates(db, 2, {});
    CandidatesAreClaimable(db, 2, {});
    ListedCount(chosen);
    assert ToSet(chosen) <= {id};
    SubsetCount(ToSet(chosen), {id});
    assert id in chosen;
  }

  ghost predicate Leased(db: Db, db': Db, id: TaskId, owner: Owner, to: TaskState) {
    MovedTo(db, db', id, to) && id < |db.tasks| && db'.tasks[id].claimedBy == Some(owner)
  }

  lemma DoneAreListed(db: Db, deps: seq<TaskId>)
    ensures |set d | d in deps && d < |db.tasks| && db.tasks[d].state.Done?| <= |deps|
  {
    ListedCount(deps);
    SubsetCount((set d | d in deps && d < |db.tasks| && db.tasks[d].state.Done?), ToSet(deps));
  }

  lemma FreeLeafIsClaimable(db: Db, id: TaskId)
    requires id < |db.tasks| && db.tasks[id].kind.Leaf? && db.tasks[id].state.Ready? && db.tasks[id].dependsOn == []
    ensures Claimable(db, id)
  {
    DoneAreListed(db, db.tasks[id].dependsOn);
  }

  lemma ClaimOfOne(db: Db, id: TaskId, owner: Owner)
    requires id < |db.tasks|
    ensures ClaimEach(db, [id], 0, owner, 60, 0) == ClaimOne(db, id, 0, owner, 60, 0)
  {
    if ClaimOne(db, id, 0, owner, 60, 0).Ok? {
      var db1 := ClaimOne(db, id, 0, owner, 60, 0).value;
      assert ClaimEach(db1, [], 1, owner, 60, 0) == Ok(db1);
      assert [id][1..] == [];
    }
  }

  lemma Claims(db: Db, id: TaskId, owner: Owner) returns (db': Db)
    requires OnWalk(db) && 0 < id < |db.tasks| && db.tasks[id].kind.Leaf? && db.tasks[id].state.Ready? && db.tasks[id].dependsOn == []
    requires forall i: TaskId | i < |db.tasks| && i != id :: !db.tasks[i].kind.Leaf?
    ensures OnWalk(db') && Leased(db, db', id, owner, Claimed)
  {
    hide Inv, Reachable;
    hide ClaimEach, Claimable, Candidates;
    var op := ClaimOp(2, owner, 60, {});
    FreeLeafIsClaimable(db, id);
    OnlyCandidate(db, id);
    ClaimKeeps(db, id, 0, owner, 60, 0);
    ClaimOfOne(db, id, owner);
    Walks(db, op, 0);
    db' := Apply(db, op, 0).value;
  }

  lemma LeafIsLeased(db: Db, id: TaskId)
    requires Inv(db) && id < |db.tasks| && db.tasks[id].state.IsLeased()
    ensures db.tasks[id].kind.Leaf?
  {
    assert LeaseOk(db.tasks[id]);
  }

  lemma Starts(db: Db, id: TaskId, owner: Owner) returns (db': Db)
    requires OnWalk(db) && id < |db.tasks| && db.tasks[id].state.Claimed? && db.tasks[id].claimedBy == Some(owner)
    ensures OnWalk(db') && Leased(db, db', id, owner, Running)
  {
    hide Inv, Reachable;
    LeafIsLeased(db, id);
    Transits(db, id, Running, Worker, 0);
    Walks(db, StartOp(id, owner), 0);
    db' := Apply(db, StartOp(id, owner), 0).value;
  }

  lemma DepthOf(db: Db, id: TaskId)
    requires Inv(db) && id < |db.tasks|
    ensures db.tasks[id].parent.None? ==> |db.tasks[id].path| == 1
    ensures db.tasks[id].parent.Some? ==>
      db.tasks[id].parent.value < id && |db.tasks[id].path| == |db.tasks[db.tasks[id].parent.value].path| + 1
  {
    assert NodeOk(db, id);
  }

  lemma OrdinalOfKid(db: Db, p: TaskId, k: nat)
    requires Inv(db) && p < |db.tasks| && k < |Kids(db, p)|
    ensures db.tasks[Kids(db, p)[k]].Ordinal() == k + 1
  {
    assert NodeOk(db, p);
  }

  lemma {:induction false} BlockingGoes(db: Db, leaf: TaskId, sibs: seq<TaskId>, now: int)
    requires Inv(db) && forall s | s in sibs :: s < |db.tasks| && !db.tasks[s].kind.Objective?
    ensures BlockEach(db, leaf, sibs, now).Ok?
    decreases |sibs|
  {
    if |sibs| > 0 {
      assert sibs[0] in sibs && forall s | s in sibs[1..] :: s in sibs;
      if db.tasks[sibs[0]].state.Ready? && leaf in db.tasks[sibs[0]].dependsOn {
        Transits(db, sibs[0], Blocked, RollupPass, now);
        TransitionKeeps(db, sibs[0], Blocked, RollupPass, now);
        BlockingGoes(Transition(db, sibs[0], Blocked, RollupPass, now).value, leaf, sibs[1..], now);
      } else {
        BlockingGoes(db, leaf, sibs[1..], now);
      }
    }
  }

  /** Blocking the dependents of a row, and the rollup after it, are never refused. */
  lemma BlockingAndRollupGo(db: Db, id: TaskId, now: int)
    requires Inv(db) && id < |db.tasks|
    ensures BlockDependents(db, id, db.tasks[id].parent, now).Ok?
    ensures RollupFrom(BlockDependents(db, id, db.tasks[id].parent, now).value, db.tasks[id].parent, now).Ok?
  {
    var parent := db.tasks[id].parent;
    if parent.Some? {
      var sibs := Kids(db, parent.value);
      forall s | s in sibs
        ensures s < |db.tasks| && !db.tasks[s].kind.Objective?
      {
        assert NodeOk(db, s);
      }
      BlockingGoes(db, id, sibs, now);
      BlockEachKeeps(db, id, sibs, now);
      var db1 := BlockEach(db, id, sibs, now).value;
      ParentIsInner(db1, id);
      RollupKeeps(db1, parent, now);
    }
  }

  /** The lessee of a running leaf can always report its failure. */
  lemma FailureGoes(db: Db, id: TaskId, owner: Owner, timedOut: bool, now: int)
    requires Inv(db) && id < |db.tasks| && db.tasks[id].state.Running? && db.tasks[id].claimedBy == Some(owner)
    ensures Fail(db, id, owner, timedOut, true, now).Ok?
  {
    var outcome := if timedOut then TimedOut else Erred;
    assert LeaseOk(db.tasks[id]);
    Transits(db, id, Failed, Worker, now);
    ReleasingKeeps(db, id, Failed, Worker, now, Some(owner), outcome);
    hide Inv, BlockDependents, RollupFrom;
    BlockingAndRollupGo(CloseWork(Transition(db, id, Failed, Worker, now).value, id, Some(owner), outcome), id, now);
  }

  // ---- cancelling ----

  lemma {:induction false} CancellingGoes(db: Db, ids: seq<TaskId>, now: int)
    requires forall x | x in ids :: x < |db.tasks| && (db.tasks[x].state.IsTerminal()
                                                   || Allowed(db.tasks[x].state, Cancelled, db.tasks[x].kind, User))
    ensures CancelEach(db, ids, now).Ok?
    decreases |ids|
  {
    if |ids| > 0 {
      assert ids[0] in ids && forall x | x in ids[1..] :: x in ids;
      if db.tasks[ids[0]].state.IsTerminal() {
        CancellingGoes(db, ids[1..], now);
      } else {
        CancellingGoes(CloseWork(Transition(db, ids[0], Cancelled, User, now).value, ids[0], None, LostLease), ids[1..], now);
      }
    }
  }

  /** A live node whose subtree the table lets a user cancel can be cancelled. */
  lemma CancelGoes(db: Db, id: TaskId, now: int)
    requires Inv(db) && id < |db.tasks| && !db.tasks[id].state.IsTerminal()
    requires forall i: TaskId | i < |db.tasks| && InSubtree(db, id, i) ::
      db.tasks[i].state.IsTerminal() || Allowed(db.tasks[i].state, Cancelled, db.tasks[i].kind, User)
    ensures Cancel(db, id, User, now).Ok?
  {
    SubtreeMembers(db, id);
    CancellingGoes(db, Subtree(db, id), now);
    CancelEachKeeps(db, Subtree(db, id), now);
    var db1 := CancelEach(db, Subtree(db, id), now).value;
    ParentIsInner(db1, id);
    RollupKeeps(db1, db.tasks[id].parent, now);
  }
}
