/**
 * Which calls are refused, with which error: the guards of every protocol in the order in which the store
 * checks them, read off the tables. Past these guards nothing fails.
 */
module CampaignVerdicts {
  import opened Outcomes
  import opened Collections
  import opened CampaignRules
  import opened CampaignTables
  import opened CampaignProtocols
  import opened CampaignInvariants
  import opened CampaignSafety
  import opened CampaignEffects
  import opened CampaignRuns
  import opened CampaignWalk
  import opened CampaignEndings
  import opened CampaignSweeps
  import L = CampaignLocks

  // ---- the guards ----

  predicate KeyUsed(db: Db, key: IdemKey) {
    exists a | 0 <= a < |db.attempts| :: db.attempts[a].idem == key
  }

  ghost predicate HasChild(db: Db, id: TaskId) {
    exists c: TaskId :: c < |db.tasks| && db.tasks[c].parent == Some(id)
  }

  ghost function RowsOf(db: Db, campaign: TaskId): set<TaskId> {
    set i: TaskId | i < |db.tasks| && db.tasks[i].campaign == campaign
  }

  function Least(a: int, b: int): int {
    if a <= b then a else b
  }

  /** A batch of one to eight children that depend on each other only, within the campaign's limits. */
  ghost predicate BatchFits(db: Db, id: TaskId, deps: seq<seq<nat>>)
    requires id < |db.tasks|
  {
    var t := db.tasks[id];
    var limits := LimitsOf(db, t.campaign);
    && 1 <= |deps| <= 8
    && (forall i | 0 <= i < |deps| :: forall d | d in deps[i] :: 1 <= d <= |deps| && d != i + 1)
    && |t.path| <= limits.maxDepth
    && |ChildRows(db, id)| + |deps| <= limits.maxChildren
    && |RowsOf(db, t.campaign)| + |deps| <= limits.maxNodes
  }

  /** A planner has used a key that the store mints for a claim of these rows. */
  ghost predicate KeysTaken(db: Db, ids: seq<TaskId>, now: int) {
    exists k, a :: 0 <= k < |ids| && 0 <= a < |db.attempts| && ids[k] < |db.tasks| && db.attempts[a].kind.Planning?
      && db.attempts[a].idem == IdemKey(ids[k], db.tasks[ids[k]].version + 1, now, k)
  }

  /** A live row of the subtree that the table lets no user cancel. */
  ghost predicate StuckBelow(db: Db, id: TaskId, i: TaskId)
    requires id < |db.tasks|
  {
    && LiveBelow(db, id, i)
    && ((db.tasks[i].state.Draft? && !db.tasks[i].kind.Objective?)
        || ((db.tasks[i].state.InReview? || db.tasks[i].state.Failed?) && !db.tasks[i].kind.Leaf?))
  }

  /** The first guard that fails, as the error that the caller sees; `None` when the call commits. */
  ghost function Refusal(db: Db, op: Op, now: int): Option<Error> {
    match op
    case CreateOp(actor, _, policy, checked) =>
      if !actor.User? then Some(Denied)
      else if !checked || (policy.Some? && !policy.value.Valid()) then Some(Invalid)
      else None
    case ClaimOp(limit, _, _, busy) =>
      if limit > 0 && KeysTaken(db, Candidates(db, limit, busy), now) then Some(AlreadyApplied) else None
    case ReapOp(_) => None
    case ReapDecomposingOp(_, _) => None
    case HeartbeatOp(id, owner, _) =>
      if id < |db.tasks| && db.tasks[id].claimedBy == Some(owner) then None else Some(LeaseLost)
    case DecomposeOp(id, expected, key, _, deps, checked) =>
      if KeyUsed(db, key) then Some(AlreadyApplied)
      else if id >= |db.tasks| then Some(NotFound)
      else if db.tasks[id].kind.Leaf? then Some(Denied)
      else if db.tasks[id].version != expected || !db.tasks[id].state.Decomposing? then Some(Conflict)
      else if !checked || !BatchFits(db, id, deps) then Some(Invalid)
      else None
    case MarkLeafOp(id, expected, key, _, checked) =>
      if KeyUsed(db, key) then Some(AlreadyApplied)
      else if id >= |db.tasks| then Some(NotFound)
      else if db.tasks[id].kind.Objective? then Some(Denied)
      else if db.tasks[id].version != expected || !db.tasks[id].state.Decomposing? || HasChild(db, id) then Some(Conflict)
      else if !checked then Some(Invalid)
      else if db.tasks[id].kind.Leaf? then Some(Denied)
      else None
    case PlanCloseOp(id, expected, key, _, _, checked) =>
      if KeyUsed(db, key) then Some(AlreadyApplied)
      else if id >= |db.tasks| then Some(NotFound)
      else if db.tasks[id].kind.Leaf? then Some(Denied)
      else if db.tasks[id].version != expected || !db.tasks[id].state.Decomposing? then Some(Conflict)
      else if !checked then Some(Invalid)
      else None
    case UpdatePolicyOp(id, policy, actor) =>
      if !actor.User? then Some(Denied)
      else if !policy.Valid() then Some(Invalid)
      else if id >= |db.tasks| then Some(NotFound)
      else if db.tasks[id].parent.Some? then Some(Invalid)
      else None
    case _ => RefusalOfRow(db, op)
  }

  /** The calls whose guards are on one row. */
  ghost function RefusalOfRow(db: Db, op: Op): Option<Error>
    requires !op.CreateOp? && !op.ClaimOp? && !op.ReapOp? && !op.ReapDecomposingOp?
  {
    if UserOnly(op) && !op.actor.User? then Some(Denied)
    else if op.task >= |db.tasks| then Some(NotFound)
    else
      var t := db.tasks[op.task];
      match op
      case PlanStartOp(_) => if t.kind.Leaf? then Some(Denied) else if !t.state.Ready? then Some(Conflict) else None
      case StartOp(_, owner) =>
        if t.claimedBy != Some(owner) then Some(LeaseLost) else if !t.state.Claimed? then Some(Conflict) else None
      case CompleteOp(_, owner, checked) =>
        if t.claimedBy != Some(owner) then Some(LeaseLost)
        else if !t.state.Running? then Some(Conflict) else if !checked then Some(Invalid) else None
      case FailOp(_, owner, _, checked) =>
        if t.claimedBy != Some(owner) then Some(LeaseLost)
        else if !t.state.Running? then Some(Conflict) else if !checked then Some(Invalid) else None
      case ResolveReviewOp(_, _) =>
        if !t.state.InReview? then Some(Conflict) else if !t.kind.Leaf? then Some(Denied) else None
      case ReviewNoteOp(_, _) => if !t.state.InReview? then Some(Conflict) else None
      case ApproveOp(_, expected, _) =>
        if t.version != expected || (!t.state.InReview? && !t.state.AwaitingApproval?) then Some(Conflict) else None
      case AnswerOp(_, expected, _, checked) =>
        if t.version != expected || !t.state.AwaitingApproval? then Some(Conflict) else if !checked then Some(Invalid) else None
      case RetryOp(_, _) =>
        if !t.state.Failed? && !t.state.Blocked? then Some(Conflict)
        else if (t.state.Failed? && !t.kind.Leaf?) || (t.state.Blocked? && t.kind.Objective?) then Some(Denied)
        else None
      case CancelOp(id, _) =>
        if t.state.Done? || t.state.Cancelled? || t.state.Superseded? then Some(Conflict)
        else if exists i: TaskId :: StuckBelow(db, id, i) then Some(Denied)
        else None
      case ReplanOp(_, _) =>
        if t.kind.Leaf? then Some(Denied) else if !t.state.Decomposed? && !t.state.Blocked? then Some(Conflict) else None
      case _ => None
  }

  /** The calls that only a user may make. */
  predicate UserOnly(op: Op) {
    op.ApproveOp? || op.ApproveChildrenOp? || op.AnswerOp? || op.RetryOp? || op.CancelOp? || op.ReplanOp?
  }

  /** The call's result is its verdict. */
  ghost predicate Rules(refusal: Option<Error>, outcome: Outcome) {
    match refusal
    case None => outcome.Ok?
    case Some(e) => outcome == Err(e)
  }

  // ---- the limits ----

  /** The ranges of a policy, and no level gated twice. */
  lemma ValidMeans(policy: Policy)
    ensures policy.Valid() <==>
      && 1 <= policy.maxDepth <= 6 && 1 <= policy.maxChildren <= 8 && 1 <= policy.maxNodes <= 200
      && 1 <= policy.maxPlanAttempts <= 10 && 1 <= policy.maxPlanTokens
      && |policy.approveLevels| <= 6 && Distinct(policy.approveLevels)
      && forall level | level in policy.approveLevels :: 1 <= level <= policy.maxDepth
    ensures policy.Valid() ==> policy.ChildrenCap() == policy.maxChildren && policy.DepthCap() == policy.maxDepth
  {
    assert forall i | 0 <= i < |policy.approveLevels| :: policy.approveLevels[i] in policy.approveLevels;
  }

  lemma {:induction false} NodesAreCounted(tasks: seq<Task>, campaign: TaskId)
    ensures CampaignNodes(tasks, campaign) == |set i: TaskId | i < |tasks| && tasks[i].campaign == campaign|
  {
    if |tasks| > 0 {
      var front := tasks[..|tasks| - 1];
      NodesAreCounted(front, campaign);
      var below := set i: TaskId | i < |front| && front[i].campaign == campaign;
      if tasks[|tasks| - 1].campaign == campaign {
        assert (set i: TaskId | i < |tasks| && tasks[i].campaign == campaign) == below + {|tasks| - 1};
      } else {
        assert (set i: TaskId | i < |tasks| && tasks[i].campaign == campaign) == below;
      }
    }
  }

  /** A stored policy is valid, and so are the defaults. */
  lemma LimitsAreValid(db: Db, id: TaskId)
    requires Inv(db) && id < |db.tasks|
    ensures PolicyOf(db, db.tasks[id].campaign) == Ok(LimitsOf(db, db.tasks[id].campaign))
    ensures LimitsOf(db, db.tasks[id].campaign).Valid()
  {
    SoundTree(db);
    CampaignExists(db, id);
  }

  // ---- the planner's calls ----

  /** A move that the table allows, and the pass after it. */
  lemma MoveAndPassGo(db: Db, id: TaskId, to: TaskState, actor: ActorClass, now: int)
    requires Inv(db) && Rooted(db) && id < |db.tasks| && Allowed(db.tasks[id].state, to, db.tasks[id].kind, actor)
    requires db.tasks[id].state.IsLeased() == to.IsLeased()
    ensures Transition(db, id, to, actor, now).Ok? && Rooted(Transition(db, id, to, actor, now).value)
    ensures var up := db.tasks[id].parent; var db1 := Transition(db, id, to, actor, now).value;
      && (up.Some? ==> up.value < |db1.tasks|) && RollupFrom(db1, up, now).Ok?
  {
    hide Inv, TreeOk, Allowed, RollupFrom;
    Transits(db, id, to, actor, now);
    TransitionKeeps(db, id, to, actor, now);
    var db1 := Transition(db, id, to, actor, now).value;
    SoundTree(db1);
    ParentIsInner(db1, id);
    RollupKeeps(db1, db.tasks[id].parent, now);
  }

  lemma PlanStartVerdict(db: Db, id: TaskId, now: int)
    requires Inv(db) && Rooted(db)
    ensures Rules(Refusal(db, PlanStartOp(id), now), PlanStart(db, id, now))
  {
    hide Inv, RollupFrom, PlanTokens, PolicyOf;
    if id < |db.tasks| && !db.tasks[id].kind.Leaf? && db.tasks[id].state.Ready? {
      LimitsAreValid(db, id);
      MoveAndPassGo(db, id, Blocked, Planner, now);
    }
  }

  lemma KeysAgree(db: Db, key: IdemKey)
    ensures IdemExists(db, key) <==> KeyUsed(db, key)
  {
  }

  lemma ChildrenAgree(db: Db, id: TaskId)
    ensures |Kids(db, id)| == |ChildRows(db, id)|
    ensures |Kids(db, id)| > 0 <==> HasChild(db, id)
  {
    KidsCounted(db, id);
    KidsAreRows(db, id);
    if HasChild(db, id) {
      var c: TaskId :| c < |db.tasks| && db.tasks[c].parent == Some(id);
      assert c in Kids(db, id);
    }
    if |Kids(db, id)| > 0 {
      assert Kids(db, id)[0] in Kids(db, id);
    }
  }

  /** The caps as the store checks them, and as sizes of sets of rows within the campaign's limits. */
  lemma FitsAgree(db: Db, id: TaskId, deps: seq<seq<nat>>)
    requires Inv(db) && id < |db.tasks|
    ensures PolicyOf(db, db.tasks[id].campaign).Ok?
    ensures var policy := PolicyOf(db, db.tasks[id].campaign).value;
      BatchFits(db, id, deps) <==>
        && 1 <= |deps| <= 8 && DepsInBatch(deps)
        && db.tasks[id].Depth() + 1 <= policy.DepthCap()
        && |Kids(db, id)| + |deps| <= policy.ChildrenCap()
        && CampaignNodes(db.tasks, db.tasks[id].campaign) + |deps| <= policy.maxNodes
  {
    hide Inv, Kids, Policy.Valid, ChildRows, CampaignNodes;
    LimitsAreValid(db, id);
    ValidMeans(LimitsOf(db, db.tasks[id].campaign));
    ChildrenAgree(db, id);
    NodesAreCounted(db.tasks, db.tasks[id].campaign);
    assert RowsOf(db, db.tasks[id].campaign) == set i: TaskId | i < |db.tasks| && db.tasks[i].campaign == db.tasks[id].campaign;
  }

  /** Past the caps, the batch and the node's own transition go through. */
  lemma SplitGoes(db: Db, id: TaskId, key: IdemKey, tokens: nat, deps: seq<seq<nat>>, state: TaskState, now: int)
    requires Inv(db) && id < |db.tasks| && !db.tasks[id].kind.Leaf? && db.tasks[id].state.Decomposing?
    requires BatchFits(db, id, deps) && !state.IsLeased()
    ensures var db1 := db.(attempts := db.attempts + [Attempt(id, Planning, key, None, Split, tokens)]);
      var added := AddKids(db1, id, state, MaxOrdinal(db, Kids(db, id)), |db.tasks|, deps, 0, now);
      added.Ok? && Transition(added.value, id, Decomposed, Planner, now).Ok?
  {
    hide Inv, Kids, AddKids, MaxOrdinal, DepsInBatch, BatchFollows, CampaignNodes, BatchFits, Policy.Valid;
    FitsAgree(db, id, deps);
    LimitsAreValid(db, id);
    ValidMeans(LimitsOf(db, db.tasks[id].campaign));
    PlanAttemptKeeps(db, Attempt(id, Planning, key, None, Split, tokens));
    var db1 := db.(attempts := db.attempts + [Attempt(id, Planning, key, None, Split, tokens)]);
    SameKids(db, db1, id);
    MaxOrdinalFrame(db, db1, Kids(db, id));
    BatchKeeps(db1, id, deps, state, now);
  }

  lemma DecomposeVerdict(db: Db, id: TaskId, expected: nat, key: IdemKey, tokens: nat, deps: seq<seq<nat>>, checked: bool, now: int)
    requires Inv(db)
    ensures Rules(Refusal(db, DecomposeOp(id, expected, key, tokens, deps, checked), now),
                  Decompose(db, id, expected, key, tokens, deps, checked, now))
  {
    hide Inv, Kids, AddKids, MaxOrdinal, DepsInBatch, CampaignNodes, BatchFits, Transition, IdemExists, KeyUsed,
      Policy.DepthCap, Policy.ChildrenCap, PolicyOf;
    KeysAgree(db, key);
    if id < |db.tasks| {
      FitsAgree(db, id, deps);
      if BatchFits(db, id, deps) && !db.tasks[id].kind.Leaf? && db.tasks[id].state.Decomposing? {
        SplitGoes(db, id, key, tokens, deps, Ready, now);
        SplitGoes(db, id, key, tokens, deps, AwaitingApproval, now);
      }
    }
  }

  lemma MarkLeafVerdict(db: Db, id: TaskId, expected: nat, key: IdemKey, tokens: nat, checked: bool, now: int)
    requires Inv(db)
    ensures Rules(Refusal(db, MarkLeafOp(id, expected, key, tokens, checked), now),
                  MarkLeaf(db, id, expected, key, tokens, checked, now))
  {
    hide Inv, Kids, IdemExists, KeyUsed, PolicyOf;
    KeysAgree(db, key);
    if id < |db.tasks| {
      LimitsAreValid(db, id);
      ChildrenAgree(db, id);
    }
  }

  /** A plan that ends blocked can always be closed, whatever was recorded with it. */
  lemma BlockPlanGoes(db: Db, id: TaskId, now: int)
    requires Inv(db) && Rooted(db) && id < |db.tasks| && !db.tasks[id].kind.Leaf? && db.tasks[id].state.Decomposing?
    requires db.tasks[id].parent.Some? ==> db.tasks[id].parent.value < |db.tasks|
    ensures BlockPlan(db, id, db.tasks[id].parent, now).Ok?
  {
    hide Inv, RollupFrom, Transition;
    MoveAndPassGo(db, id, Blocked, Planner, now);
  }

  lemma PlanCloseVerdict(db: Db, id: TaskId, expected: nat, key: IdemKey, tokens: nat, result: PlanResult, checked: bool, now: int)
    requires Inv(db) && Rooted(db)
    ensures Rules(Refusal(db, PlanCloseOp(id, expected, key, tokens, result, checked), now),
                  PlanClose(db, id, expected, key, tokens, result, checked, now))
  {
    hide Inv, BlockPlan, IdemExists, KeyUsed, PolicyOf, Transition;
    KeysAgree(db, key);
    if id < |db.tasks| && !db.tasks[id].kind.Leaf? && db.tasks[id].state.Decomposing? {
      var a := Attempt(id, Planning, key, None, CloseOutcome(result), tokens);
      PlanAttemptKeeps(db, a);
      ClosingGoes(db.(attempts := db.attempts + [a]), id, now);
    }
  }

  /** Whatever follows a recorded plan can be done. */
  lemma ClosingGoes(db: Db, id: TaskId, now: int)
    requires Inv(db) && Rooted(db) && id < |db.tasks| && !db.tasks[id].kind.Leaf? && db.tasks[id].state.Decomposing?
    requires db.tasks[id].parent.Some? ==> db.tasks[id].parent.value < |db.tasks|
    ensures PolicyOf(db, db.tasks[id].campaign).Ok?
    ensures Transition(db, id, AwaitingApproval, Planner, now).Ok? && BlockPlan(db, id, db.tasks[id].parent, now).Ok?
    ensures var db2 := SetAttempts(db, id, db.tasks[id].attempts + 1);
      && Rooted(db2) && Transition(db2, id, Ready, Planner, now).Ok? && BlockPlan(db2, id, db.tasks[id].parent, now).Ok?
  {
    hide Inv, BlockPlan, PolicyOf, Transition;
    LimitsAreValid(db, id);
    Transits(db, id, AwaitingApproval, Planner, now);
    BlockPlanGoes(db, id, now);
    var db2 := SetAttempts(db, id, db.tasks[id].attempts + 1);
    CounterKeeps(db, id, db.tasks[id].attempts + 1);
    Transits(db2, id, Ready, Planner, now);
    BlockPlanGoes(db2, id, now);
  }

  // ---- claim, heartbeat, reap ----

  lemma {:induction false} FreeKeys(db: Db, ids: seq<TaskId>, position: nat, now: int)
    ensures KeysAreFree(db, ids, position, now) <==>
      forall k | 0 <= k < |ids| && ids[k] < |db.tasks| ::
        !PlannerHolds(db, IdemKey(ids[k], db.tasks[ids[k]].version + 1, now, position + k))
    decreases |ids|
  {
    if |ids| > 0 {
      FreeKeys(db, ids[1..], position + 1, now);
      assert forall k | 0 <= k < |ids| - 1 :: ids[1..][k] == ids[k + 1] && position + 1 + k == position + (k + 1);
      assert forall k | 0 < k < |ids| :: ids[k] == ids[1..][k - 1];
    }
  }

  lemma KeysTakenAgree(db: Db, ids: seq<TaskId>, now: int)
    ensures KeysTaken(db, ids, now) <==> !KeysAreFree(db, ids, 0, now)
  {
    hide KeysAreFree;
    FreeKeys(db, ids, 0, now);
  }

  /** A claim that fails, fails on a key. */
  lemma {:induction false} ClaimFailsOnKey(db: Db, ids: seq<TaskId>, position: nat, owner: Owner, lease: int, now: int)
    requires AreRows(db.tasks, ids) && ClaimEach(db, ids, position, owner, lease, now).Err?
    ensures ClaimEach(db, ids, position, owner, lease, now) == Err(AlreadyApplied)
    decreases |ids|
  {
    if |ids| > 0 && ClaimOne(db, ids[0], position, owner, lease, now).Ok? {
      ClaimFailsOnKey(ClaimOne(db, ids[0], position, owner, lease, now).value, ids[1..], position + 1, owner, lease, now);
    }
  }

  lemma ClaimVerdict(db: Db, limit: nat, owner: Owner, leaseSecs: int, busy: set<TaskId>, now: int)
    requires Inv(db)
    ensures Rules(Refusal(db, ClaimOp(limit, owner, leaseSecs, busy), now), Claim(db, limit, owner, leaseSecs, busy, now))
  {
    hide Inv, Candidates, ClaimEach, KeysTaken, KeysAreFree;
    var ids := Candidates(db, limit, busy);
    ClaimIsExact(db, limit, owner, leaseSecs, busy, now);
    KeysTakenAgree(db, ids, now);
    if Claim(db, limit, owner, leaseSecs, busy, now).Err? {
      CandidatesAreFirst(db, limit, busy);
      QueueIsReady(db, limit, busy, ids);
      ClaimFailsOnKey(db, ids, 0, owner, ClampLease(leaseSecs), now);
    }
  }

  lemma HeartbeatVerdict(db: Db, id: TaskId, owner: Owner, leaseSecs: int, now: int)
    requires Inv(db)
    ensures Rules(Refusal(db, HeartbeatOp(id, owner, leaseSecs), now), Heartbeat(db, id, owner, leaseSecs, now))
  {
    if id < |db.tasks| {
      assert LeaseOk(db.tasks[id]);
    }
  }

  /** A leased leaf, whose lease the reaper may end. */
  predicate Reapable(t: Task) {
    t.kind.Leaf? && (t.state.Claimed? || t.state.Running?)
  }

  lemma {:induction false} ReapingGoes(db: Db, ids: seq<TaskId>, now: int)
    requires Distinct(ids) && AreRows(db.tasks, ids) && forall k | 0 <= k < |ids| :: Reapable(db.tasks[ids[k]])
    ensures ReapEach(db, ids, now).Ok?
    decreases |ids|
  {
    if |ids| > 0 {
      var db1 := ReapOne(db, ids[0], now).value;
      OthersAreRows(db.tasks, db1.tasks, ids);
      ReapingGoes(db1, ids[1..], now);
    }
  }

  lemma ReapVerdict(db: Db, busy: set<TaskId>, now: int)
    requires Inv(db)
    ensures Rules(Refusal(db, ReapOp(busy), now), Reap(db, busy, now))
  {
    hide Inv, ReapEach, Select, Reapable;
    var keep := (i: TaskId) => Expired(db, i, now) && i !in busy;
    var ids := Select(keep, |db.tasks|);
    SelectMembers(keep, |db.tasks|);
    forall k | 0 <= k < |ids|
      ensures ids[k] < |db.tasks| && Reapable(db.tasks[ids[k]])
    {
      assert ids[k] in ids;
      LeasedIsReapable(db, ids[k]);
    }
    ReapingGoes(db, ids, now);
  }

  lemma LeasedIsReapable(db: Db, id: TaskId)
    requires Inv(db) && id < |db.tasks| && db.tasks[id].claimedBy.Some?
    ensures Reapable(db.tasks[id])
  {
    assert LeaseOk(db.tasks[id]);
  }

  lemma {:induction false} ReleasingGoes(db: Db, ids: seq<TaskId>, now: int)
    requires AreRows(db.tasks, ids)
    ensures ReleaseEach(db, ids, now).Ok?
    decreases |ids|
  {
    if |ids| > 0 {
      var t := db.tasks[ids[0]];
      ReleasingGoes(Write(db, ids[0], t.(state := Ready, version := t.version + 1, updatedAt := now), Decomposing, Reaper, Plain),
                    ids[1..], now);
    }
  }

  lemma ReapDecomposingVerdict(db: Db, maxAgeSecs: int, busy: set<TaskId>, now: int)
    ensures Rules(Refusal(db, ReapDecomposingOp(maxAgeSecs, busy), now), ReapDecomposing(db, maxAgeSecs, busy, now))
  {
    hide ReleaseEach, Select;
    var keep := (i: TaskId) => PlanStale(db, i, ClampLease(maxAgeSecs), now) && i !in busy;
    var ids := Select(keep, |db.tasks|);
    SelectMembers(keep, |db.tasks|);
    assert forall k | 0 <= k < |ids| :: ids[k] in ids;
    ReleasingGoes(db, ids, now);
  }

  // ---- the calls on one row ----

  lemma StartVerdict(db: Db, id: TaskId, owner: Owner, now: int)
    requires Inv(db)
    ensures Rules(Refusal(db, StartOp(id, owner), now), Start(db, id, owner, now))
  {
    hide Inv;
    if id < |db.tasks| && db.tasks[id].claimedBy == Some(owner) {
      LeasedIsReapable(db, id);
    }
  }

  lemma CompleteVerdict(db: Db, id: TaskId, owner: Owner, checked: bool, now: int)
    requires Inv(db)
    ensures Rules(Refusal(db, CompleteOp(id, owner, checked), now), Complete(db, id, owner, checked, now))
  {
    hide Inv, CloseAttempts;
    if id < |db.tasks| && db.tasks[id].claimedBy == Some(owner) {
      LeasedIsReapable(db, id);
    }
  }

  lemma FailVerdict(db: Db, id: TaskId, owner: Owner, timedOut: bool, checked: bool, now: int)
    requires Inv(db) && Rooted(db)
    ensures Rules(Refusal(db, FailOp(id, owner, timedOut, checked), now), Fail(db, id, owner, timedOut, checked, now))
  {
    hide Inv, Allowed, BlockDependents, RollupFrom, CloseAttempts;
    if id < |db.tasks| && db.tasks[id].claimedBy == Some(owner) && db.tasks[id].state.Running? {
      FailureGoes(db, id, owner, timedOut, now);
    }
  }

  lemma ResolveVerdict(db: Db, id: TaskId, merged: bool, now: int)
    requires Inv(db) && Rooted(db)
    ensures Rules(Refusal(db, ResolveReviewOp(id, merged), now), ResolveReview(db, id, merged, now))
  {
    hide Inv, BlockDependents, RollupFrom;
    if id < |db.tasks| && db.tasks[id].state.InReview? && db.tasks[id].kind.Leaf? {
      hide Allowed;
      L.ReviewGoes(db, id, merged, now);
    }
  }

  lemma NoteVerdict(db: Db, id: TaskId, awaiting: bool, now: int)
    ensures Rules(Refusal(db, ReviewNoteOp(id, awaiting), now), ReviewNote(db, id, awaiting))
  {
    hide HasAwaitingMark;
  }

  lemma ApproveVerdict(db: Db, id: TaskId, expected: nat, actor: ActorClass, now: int)
    ensures Rules(Refusal(db, ApproveOp(id, expected, actor), now), Approve(db, id, expected, actor, now))
  {
  }

  lemma ApproveChildrenVerdict(db: Db, id: TaskId, actor: ActorClass, now: int)
    ensures Rules(Refusal(db, ApproveChildrenOp(id, actor), now), ApproveChildren(db, id, actor, now))
  {
    hide ApproveEach, Kids;
    L.ApprovingGoes(db, Kids(db, id), now);
  }

  lemma AnswerVerdict(db: Db, id: TaskId, expected: nat, actor: ActorClass, checked: bool, now: int)
    ensures Rules(Refusal(db, AnswerOp(id, expected, actor, checked), now), Answer(db, id, expected, actor, checked, now))
  {
  }

  lemma RetryVerdict(db: Db, id: TaskId, actor: ActorClass, now: int)
    requires Inv(db) && Rooted(db)
    ensures Rules(Refusal(db, RetryOp(id, actor), now), Retry(db, id, actor, now))
  {
    hide Inv, Allowed, RollupFrom;
    if id < |db.tasks| && (db.tasks[id].state.Failed? || db.tasks[id].state.Blocked?) {
      UserMoves(db.tasks[id].state, Ready, db.tasks[id].kind);
      if Allowed(db.tasks[id].state, Ready, db.tasks[id].kind, User) {
        MoveAndPassGo(db, id, Ready, User, now);
      }
    }
  }

  lemma UpdatePolicyVerdict(db: Db, id: TaskId, policy: Policy, actor: ActorClass, now: int)
    requires Inv(db)
    ensures Rules(Refusal(db, UpdatePolicyOp(id, policy, actor), now), UpdatePolicy(db, id, policy, actor, now))
  {
    hide Policy.Valid;
    if id < |db.tasks| {
      assert NodeOk(db, id);
      if db.tasks[id].parent.Some? {
        assert NodeOk(db, db.tasks[id].parent.value);
      }
    }
  }

  // ---- cancel and replan ----

  lemma {:induction false} CancellingStops(db: Db, ids: seq<TaskId>, x: TaskId, now: int)
    requires Distinct(ids) && AreRows(db.tasks, ids) && x in ids && x < |db.tasks| && !db.tasks[x].state.IsTerminal()
    requires !Allowed(db.tasks[x].state, Cancelled, db.tasks[x].kind, User)
    ensures CancelEach(db, ids, now) == Err(Denied)
    decreases |ids|
  {
    Headed(ids);
    if ids[0] != x {
      if db.tasks[ids[0]].state.IsTerminal() {
        CancellingStops(db, ids[1..], x, now);
      } else if Allowed(db.tasks[ids[0]].state, Cancelled, db.tasks[ids[0]].kind, User) {
        var db1 := CloseWork(Transition(db, ids[0], Cancelled, User, now).value, ids[0], None, LostLease);
        CancellingStops(db1, ids[1..], x, now);
      }
    }
  }

  lemma UserMayCancel(db: Db, id: TaskId, i: TaskId)
    requires Inv(db) && id < |db.tasks| && LiveBelow(db, id, i)
    ensures StuckBelow(db, id, i) <==> !Allowed(db.tasks[i].state, Cancelled, db.tasks[i].kind, User)
  {
    assert LeaseOk(db.tasks[i]);
    UserMoves(db.tasks[i].state, Cancelled, db.tasks[i].kind);
  }

  lemma CancelVerdict(db: Db, id: TaskId, actor: ActorClass, now: int)
    requires Inv(db) && Rooted(db)
    ensures Rules(Refusal(db, CancelOp(id, actor), now), Cancel(db, id, actor, now))
  {
    hide Inv, Allowed, CancelEach, RollupFrom, Subtree, StuckBelow;
    if id < |db.tasks| && !db.tasks[id].state.IsTerminal() && actor.User? {
      SubtreeIsList(db, id);
      if i: TaskId :| StuckBelow(db, id, i) {
        StuckIsLive(db, id, i);
        UserMayCancel(db, id, i);
        CancellingStops(db, Subtree(db, id), i, now);
      } else {
        forall i: TaskId | LiveBelow(db, id, i)
          ensures Allowed(db.tasks[i].state, Cancelled, db.tasks[i].kind, User)
        {
          UserMayCancel(db, id, i);
        }
        CancelGoes(db, id, now);
      }
    }
  }

  lemma StuckIsLive(db: Db, id: TaskId, i: TaskId)
    requires id < |db.tasks| && StuckBelow(db, id, i)
    ensures LiveBelow(db, id, i)
  {
  }

  lemma {:induction false} SupersedingGoes(db: Db, root: TaskId, ids: seq<TaskId>, now: int)
    requires Distinct(ids) && AreRows(db.tasks, ids)
    requires forall x: TaskId | x in ids && x != root && x < |db.tasks| :: !db.tasks[x].kind.Objective?
    ensures SupersedeEach(db, root, ids, now).Ok?
    decreases |ids|
  {
    if |ids| > 0 {
      Headed(ids);
      if ids[0] == root || db.tasks[ids[0]].state.IsTerminal() {
        SupersedingGoes(db, root, ids[1..], now);
      } else {
        var db1 := Transition(db, ids[0], Superseded, User, now).value;
        var db2 := CloseWork(Put(db1, ids[0], db1.tasks[ids[0]].(supersededBy := Some(root))), ids[0], None, LostLease);
        SupersedingGoes(db2, root, ids[1..], now);
      }
    }
  }

  lemma BelowIsInner(db: Db, id: TaskId, i: TaskId)
    requires Inv(db) && id < |db.tasks| && i < |db.tasks| && i != id && db.tasks[id].path <= db.tasks[i].path
    ensures !db.tasks[i].kind.Objective?
  {
    assert NodeOk(db, i) && NodeOk(db, id);
    if db.tasks[i].parent.None? {
      assert db.tasks[id].path == db.tasks[i].path;
      PathsAreUnique(db, id, i);
    }
  }

  lemma ReplanVerdict(db: Db, id: TaskId, actor: ActorClass, now: int)
    requires Inv(db)
    ensures Rules(Refusal(db, ReplanOp(id, actor), now), Replan(db, id, actor, now))
  {
    hide Inv, SupersedeEach, Subtree;
    if id < |db.tasks| && actor.User? && !db.tasks[id].kind.Leaf? && (db.tasks[id].state.Decomposed? || db.tasks[id].state.Blocked?) {
      SubtreeIsList(db, id);
      forall x: TaskId | x in Subtree(db, id) && x != id && x < |db.tasks|
        ensures !db.tasks[x].kind.Objective?
      {
        BelowIsInner(db, id, x);
      }
      SupersedingGoes(db, id, Subtree(db, id), now);
      SupersedeEachKeeps(db, id, Subtree(db, id), now);
    }
  }

  lemma PlannersVerdict(db: Db, op: Op, now: int)
    requires Inv(db) && Rooted(db) && (op.CreateOp? || op.PlanStartOp? || op.DecomposeOp? || op.MarkLeafOp? || op.PlanCloseOp?)
    ensures Rules(Refusal(db, op, now), Apply(db, op, now))
  {
    hide Inv, Rules, Refusal, KeysTaken, Create, PlanStart, Decompose, MarkLeaf, PlanClose, Claim, Heartbeat, Reap, ReapDecomposing,
      Start, Complete, Fail, ResolveReview, ReviewNote, Approve, ApproveChildren, Answer, Retry, UpdatePolicy, Cancel, Replan;
    match op
    case CreateOp(actor, draft, policy, checked) => CreateVerdict(db, actor, draft, policy, checked, now);
    case PlanStartOp(id) => PlanStartVerdict(db, id, now);
    case DecomposeOp(id, expected, key, tokens, deps, checked) => DecomposeVerdict(db, id, expected, key, tokens, deps, checked, now);
    case MarkLeafOp(id, expected, key, tokens, checked) => MarkLeafVerdict(db, id, expected, key, tokens, checked, now);
    case PlanCloseOp(id, expected, key, tokens, result, checked) =>
      PlanCloseVerdict(db, id, expected, key, tokens, result, checked, now);
  }

  lemma ClaimantsVerdict(db: Db, op: Op, now: int)
    requires Inv(db) && Rooted(db) && (op.ClaimOp? || op.HeartbeatOp? || op.ReapOp? || op.ReapDecomposingOp?)
    ensures Rules(Refusal(db, op, now), Apply(db, op, now))
  {
    hide Inv, Rules, Refusal, KeysTaken, Create, PlanStart, Decompose, MarkLeaf, PlanClose, Claim, Heartbeat, Reap, ReapDecomposing,
      Start, Complete, Fail, ResolveReview, ReviewNote, Approve, ApproveChildren, Answer, Retry, UpdatePolicy, Cancel, Replan;
    match op
    case ClaimOp(limit, owner, leaseSecs, busy) => ClaimVerdict(db, limit, owner, leaseSecs, busy, now);
    case HeartbeatOp(id, owner, leaseSecs) => HeartbeatVerdict(db, id, owner, leaseSecs, now);
    case ReapOp(busy) => ReapVerdict(db, busy, now);
    case ReapDecomposingOp(maxAgeSecs, busy) => ReapDecomposingVerdict(db, maxAgeSecs, busy, now);
  }

  lemma LeafVerdict(db: Db, op: Op, now: int)
    requires Inv(db) && Rooted(db) && (op.StartOp? || op.CompleteOp? || op.FailOp? || op.ResolveReviewOp? || op.ReviewNoteOp?)
    ensures Rules(Refusal(db, op, now), Apply(db, op, now))
  {
    hide Inv, Rules, Refusal, KeysTaken, Create, PlanStart, Decompose, MarkLeaf, PlanClose, Claim, Heartbeat, Reap, ReapDecomposing,
      Start, Complete, Fail, ResolveReview, ReviewNote, Approve, ApproveChildren, Answer, Retry, UpdatePolicy, Cancel, Replan;
    match op
    case StartOp(id, owner) => StartVerdict(db, id, owner, now);
    case CompleteOp(id, owner, checked) => CompleteVerdict(db, id, owner, checked, now);
    case FailOp(id, owner, timedOut, checked) => FailVerdict(db, id, owner, timedOut, checked, now);
    case ResolveReviewOp(id, merged) => ResolveVerdict(db, id, merged, now);
    case ReviewNoteOp(id, awaiting) => NoteVerdict(db, id, awaiting, now);
  }

  /**
   * A call commits exactly when no guard fails, and otherwise its error is that of the first guard that does:
   * neither the table of transitions nor a key, a number or a missing row fails it later.
   */
  lemma VerdictIsExact(db: Db, op: Op, now: int)
    requires Inv(db) && Rooted(db)
    ensures Rules(Refusal(db, op, now), Apply(db, op, now))
  {
    hide Inv, Rules, Refusal, KeysTaken, Create, PlanStart, Decompose, MarkLeaf, PlanClose, Claim, Heartbeat, Reap, ReapDecomposing,
      Start, Complete, Fail, ResolveReview, ReviewNote, Approve, ApproveChildren, Answer, Retry, UpdatePolicy, Cancel, Replan;
    match op
    case ApproveOp(id, expected, actor) => ApproveVerdict(db, id, expected, actor, now);
    case ApproveChildrenOp(id, actor) => ApproveChildrenVerdict(db, id, actor, now);
    case AnswerOp(id, expected, actor, checked) => AnswerVerdict(db, id, expected, actor, checked, now);
    case RetryOp(id, actor) => RetryVerdict(db, id, actor, now);
    case UpdatePolicyOp(id, policy, actor) => UpdatePolicyVerdict(db, id, policy, actor, now);
    case CancelOp(id, actor) => CancelVerdict(db, id, actor, now);
    case ReplanOp(id, actor) => ReplanVerdict(db, id, actor, now);
    case _ =>
      if op.CreateOp? || op.PlanStartOp? || op.DecomposeOp? || op.MarkLeafOp? || op.PlanCloseOp? {
        PlannersVerdict(db, op, now);
      } else if op.ClaimOp? || op.HeartbeatOp? || op.ReapOp? || op.ReapDecomposingOp? {
        ClaimantsVerdict(db, op, now);
      } else {
        LeafVerdict(db, op, now);
      }
  }

  lemma CreateVerdict(db: Db, actor: ActorClass, draft: bool, policy: Option<Policy>, checked: bool, now: int)
    ensures Rules(Refusal(db, CreateOp(actor, draft, policy, checked), now), Create(db, actor, draft, policy, checked, now))
  {
    hide Policy.Valid;
  }
}
