/**
 * Every protocol of the campaign store as one step over the tables: `Ok` with the committed
 * tables, or the error that rolled the transaction back.
 *
 * `checked` stands for a request's own text, size, screening and cycle checks.
 * `busy` is the set of rows locked by other transactions, which a `SKIP LOCKED` statement passes over.
 */
module CampaignProtocols {
  import opened Outcomes
  import opened CampaignRules
  import opened CampaignTables

  datatype PlanResult = AsksForInfo | Rejects | FindsInjection | Errs

  datatype Op =
    | CreateOp(actor: ActorClass, draft: bool, policy: Option<Policy>, checked: bool)
    | PlanStartOp(task: TaskId)
    | DecomposeOp(task: TaskId, expected: nat, key: IdemKey, tokens: nat, deps: seq<seq<nat>>, checked: bool)
    | MarkLeafOp(task: TaskId, expected: nat, key: IdemKey, tokens: nat, checked: bool)
    | PlanCloseOp(task: TaskId, expected: nat, key: IdemKey, tokens: nat, result: PlanResult, checked: bool)
    | ClaimOp(limit: nat, owner: Owner, leaseSecs: int, busy: set<TaskId>)
    | HeartbeatOp(task: TaskId, owner: Owner, leaseSecs: int)
    | ReapOp(busy: set<TaskId>)
    | ReapDecomposingOp(maxAgeSecs: int, busy: set<TaskId>)
    | StartOp(task: TaskId, owner: Owner)
    | CompleteOp(task: TaskId, owner: Owner, checked: bool)
    | FailOp(task: TaskId, owner: Owner, timedOut: bool, checked: bool)
    | ResolveReviewOp(task: TaskId, merged: bool)
    | ReviewNoteOp(task: TaskId, awaiting: bool)
    | ApproveOp(task: TaskId, expected: nat, actor: ActorClass)
    | ApproveChildrenOp(task: TaskId, actor: ActorClass)
    | AnswerOp(task: TaskId, expected: nat, actor: ActorClass, checked: bool)
    | RetryOp(task: TaskId, actor: ActorClass)
    | UpdatePolicyOp(task: TaskId, newPolicy: Policy, actor: ActorClass)
    | CancelOp(task: TaskId, actor: ActorClass)
    | ReplanOp(task: TaskId, actor: ActorClass)

  function Cas(t: Task, expected: nat, state: TaskState): Guard<Error> {
    if t.version != expected then Refuse(Conflict) else RequireState(t, state)
  }

  function RequireState(t: Task, state: TaskState): Guard<Error> {
    Need(t.state == state, Conflict)
  }

  /** A lease, or the age at which a plan is stale: a minute at least and a day at most. */
  function ClampLease(secs: int): (r: int)
    ensures 60 <= r <= 86_400
    ensures 60 <= secs <= 86_400 ==> r == secs
    ensures secs < 60 ==> r == 60
    ensures secs > 86_400 ==> r == 86_400
  {
    if secs < 60 then 60 else if secs > 86_400 then 86_400 else secs
  }

  // ---- (a) create ----

  function NewRoot(id: TaskId, state: TaskState, policy: Policy, now: int): Task {
    Task(id, None, [id], Objective, state, 1, 0, [], Some(policy), None, None, now, None)
  }

  function Create(db: Db, actor: ActorClass, draft: bool, policy: Option<Policy>, checked: bool, now: int): Outcome {
    var byUser := actor.User?;
    :- Need(byUser, Denied);
    :- Need(checked && (policy.Some? ==> policy.value.Valid()), Invalid);
    var p := if policy.Some? then policy.value else DEFAULT_POLICY;
    Ok(InsertTask(db, NewRoot(|db.tasks|, if draft then Draft else Ready, p, now), User))
  }

  // ---- (b) plan ----

  function PlanStart(db: Db, id: TaskId, now: int): Outcome
    requires Rooted(db)
  {
    var t :- Get(db, id);
    :- Need(!t.kind.Leaf?, Denied);
    :- RequireState(t, Ready);
    var policy :- PolicyOf(db, t.campaign);
    if t.attempts >= policy.maxPlanAttempts || PlanTokens(db, t.campaign, |db.attempts|) >= policy.maxPlanTokens then
      var db1 :- Transition(db, id, Blocked, Planner, now);
      RollupFrom(db1, t.parent, now)
    else Transition(db, id, Decomposing, Planner, now)
  }

  /** Dependencies name other members of the same batch. */
  predicate DepsInBatch(deps: seq<seq<nat>>) {
    forall i | 0 <= i < |deps| :: forall d | d in deps[i] :: 1 <= d <= |deps| && d != i + 1
  }

  function MaxOrdinal(db: Db, kids: seq<TaskId>): nat
    requires forall i | 0 <= i < |kids| :: kids[i] < |db.tasks|
  {
    if |kids| == 0 then 0
    else
      var rest := MaxOrdinal(db, kids[..|kids| - 1]);
      var last := db.tasks[kids[|kids| - 1]].Ordinal();
      if last > rest then last else rest
  }

  /** The ids of the batch members with these ordinals, when the batch is inserted from row `base` on. */
  function BatchIds(deps: seq<nat>, base: TaskId): (ids: seq<TaskId>)
    ensures |ids| == |deps|
    ensures forall i | 0 <= i < |deps| && deps[i] >= 1 :: ids[i] == base + deps[i] - 1
  {
    seq(|deps|, i requires 0 <= i < |deps| => if deps[i] >= 1 then base + deps[i] - 1 else base)
  }

  /** The row of the batch's child at `path`, depending on the batch members that `deps` names. */
  function NewKid(parent: Task, parentId: TaskId, path: seq<nat>, state: TaskState, base: TaskId, deps: seq<nat>, now: int): Task {
    Task(parent.campaign, Some(parentId), path, Interior, state, 1, 0,
         BatchIds(deps, base), None, None, None, now, None)
  }

  /** Insert children `i..` of the batch; their ordinals continue from `maxOrd`. */
  function AddKids(db: Db, parentId: TaskId, state: TaskState, maxOrd: nat, base: TaskId, deps: seq<seq<nat>>, i: nat, now: int): (r: Outcome)
    requires i <= |deps| && parentId < |db.tasks|
    ensures r.Ok? && Rooted(db) ==> Rooted(r.value)
    ensures r.Ok? ==> |r.value.tasks| == |db.tasks| + |deps| - i && parentId < |r.value.tasks|
    decreases |deps| - i
  {
    if i == |deps| then Ok(db)
    else
      var path :- ChildPath(db.tasks[parentId].path, maxOrd + i + 1);
      AddKids(InsertTask(db, NewKid(db.tasks[parentId], parentId, path, state, base, deps[i], now), Planner),
              parentId, state, maxOrd, base, deps, i + 1, now)
  }

  function Decompose(db: Db, id: TaskId, expected: nat, key: IdemKey, tokens: nat, deps: seq<seq<nat>>, checked: bool, now: int): Outcome {
    var isNew := !IdemExists(db, key);
    :- Need(isNew, AlreadyApplied);
    var parent :- Get(db, id);
    :- Need(!parent.kind.Leaf?, Denied);
    :- Cas(parent, expected, Decomposing);
    :- Need(1 <= |deps| <= 8, Invalid);
    :- Need(checked && DepsInBatch(deps), Invalid);
    var policy :- PolicyOf(db, parent.campaign);
    :- Need(parent.Depth() + 1 <= policy.DepthCap(), Invalid);
    var kids := Kids(db, id);
    :- Need(|kids| + |deps| <= policy.ChildrenCap(), Invalid);
    :- Need(CampaignNodes(db.tasks, parent.campaign) + |deps| <= policy.maxNodes, Invalid);
    var db1 :- InsertAttempt(db, Attempt(id, Planning, key, None, Split, tokens));
    var state := if policy.Gated(parent.Depth() + 1) then AwaitingApproval else Ready;
    var db2 :- AddKids(db1, id, state, MaxOrdinal(db, kids), |db.tasks|, deps, 0, now);
    Transition(db2, id, Decomposed, Planner, now)
  }

  /** `kind` flips after the transition, which is judged on the kind before it. */
  function MarkLeaf(db: Db, id: TaskId, expected: nat, key: IdemKey, tokens: nat, checked: bool, now: int): Outcome {
    var isNew := !IdemExists(db, key);
    :- Need(isNew, AlreadyApplied);
    var t :- Get(db, id);
    :- Need(!t.kind.Objective?, Denied);
    :- Cas(t, expected, Decomposing);
    :- Need(|Kids(db, id)| == 0, Conflict);
    :- Need(checked, Invalid);
    var policy :- PolicyOf(db, t.campaign);
    var db1 :- InsertAttempt(db, Attempt(id, Planning, key, None, Execute, tokens));
    var db2 :- Transition(db1, id, if policy.Gated(t.Depth()) then AwaitingApproval else Ready, Planner, now);
    var t2 :- Get(db2, id);
    Ok(Put(db2, id, t2.(kind := Leaf)))
  }

  function SetAttempts(db: Db, id: TaskId, attempts: nat): Db
    requires id < |db.tasks|
  {
    Put(db, id, db.tasks[id].(attempts := attempts))
  }

  /** Close the plan as blocked, which the parent has to see. */
  function BlockPlan(db: Db, id: TaskId, parent: Option<TaskId>, now: int): Outcome
    requires Rooted(db)
    requires parent.Some? ==> parent.value < |db.tasks|
  {
    var db1 :- Transition(db, id, Blocked, Planner, now);
    RollupFrom(db1, parent, now)
  }

  function CloseOutcome(result: PlanResult): AttemptOutcome {
    match result
    case AsksForInfo => NeedsInfo
    case Rejects => Reject
    case FindsInjection => Erred
    case Errs => Erred
  }

  function PlanClose(db: Db, id: TaskId, expected: nat, key: IdemKey, tokens: nat, result: PlanResult, checked: bool, now: int): Outcome
    requires Rooted(db)
  {
    var isNew := !IdemExists(db, key);
    :- Need(isNew, AlreadyApplied);
    var t :- Get(db, id);
    :- Need(!t.kind.Leaf?, Denied);
    :- Cas(t, expected, Decomposing);
    :- Need(checked, Invalid);
    var db1 :- InsertAttempt(db, Attempt(id, Planning, key, None, CloseOutcome(result), tokens));
    match result
    case AsksForInfo => Transition(db1, id, AwaitingApproval, Planner, now)
    case Rejects => BlockPlan(db1, id, t.parent, now)
    case FindsInjection => BlockPlan(db1, id, t.parent, now)
    case Errs =>
      var policy :- PolicyOf(db1, t.campaign);
      var db2 := SetAttempts(db1, id, t.attempts + 1);
      if t.attempts + 1 >= policy.maxPlanAttempts then BlockPlan(db2, id, t.parent, now)
      else Transition(db2, id, Ready, Planner, now)
  }

  // ---- (c) claim, heartbeat, reap ----

  /** A ready leaf, each of whose dependencies is a distinct `done` row. */
  predicate Claimable(db: Db, id: TaskId) {
    && id < |db.tasks|
    && db.tasks[id].kind.Leaf?
    && db.tasks[id].state.Ready?
    && |(set d | d in db.tasks[id].dependsOn && d < |db.tasks| && db.tasks[d].state.Done?)| == |db.tasks[id].dependsOn|
  }

  function QueueKey(tasks: seq<Task>): TaskId -> seq<nat> {
    (i: TaskId) => if i < |tasks| then [tasks[i].campaign] + tasks[i].path else []
  }

  /** The first `limit` claimable rows that nobody holds, in `(campaign, path)` order. */
  function Candidates(db: Db, limit: nat, busy: set<TaskId>): seq<TaskId> {
    var queue := SortBy(QueueKey(db.tasks), Select((i: TaskId) => Claimable(db, i) && i !in busy, |db.tasks|));
    if |queue| <= limit then queue else queue[..limit]
  }

  /** The key of the claim that takes row `id` at this place of its batch. */
  function MintedKey(db: Db, id: TaskId, position: nat, now: int): IdemKey
    requires id < |db.tasks|
  {
    IdemKey(id, db.tasks[id].version + 1, now, position)
  }

  function ClaimOne(db: Db, id: TaskId, position: nat, owner: Owner, lease: int, now: int): (r: Outcome)
    requires id < |db.tasks|
    ensures r.Ok? ==> |r.value.tasks| == |db.tasks|
  {
    var t := db.tasks[id];
    var row := t.(state := Claimed, version := t.version + 1, updatedAt := now,
                  claimedBy := Some(owner), leaseUntil := Some(now + 1000 * lease));
    InsertAttempt(Write(db, id, row, Ready, Driver, Plain),
                  Attempt(id, Work, MintedKey(db, id, position, now), Some(owner), Pending, 0))
  }

  function ClaimEach(db: Db, ids: seq<TaskId>, position: nat, owner: Owner, lease: int, now: int): (r: Outcome)
    decreases |ids|
  {
    if |ids| == 0 then Ok(db)
    else
      :- Need(ids[0] < |db.tasks|, NotFound);
      var db1 :- ClaimOne(db, ids[0], position, owner, lease, now);
      ClaimEach(db1, ids[1..], position + 1, owner, lease, now)
  }

  function Claim(db: Db, limit: nat, owner: Owner, leaseSecs: int, busy: set<TaskId>, now: int): Outcome {
    if limit == 0 then Ok(db)
    else ClaimEach(db, Candidates(db, limit, busy), 0, owner, ClampLease(leaseSecs), now)
  }

  function Heartbeat(db: Db, id: TaskId, owner: Owner, leaseSecs: int, now: int): Outcome {
    if id < |db.tasks| && db.tasks[id].claimedBy == Some(owner) && db.tasks[id].state.IsLeased() then
      Ok(Put(db, id, db.tasks[id].(leaseUntil := Some(now + 1000 * ClampLease(leaseSecs)), updatedAt := now)))
    else Err(LeaseLost)
  }

  predicate Expired(db: Db, id: TaskId, now: int) {
    && id < |db.tasks|
    && db.tasks[id].claimedBy.Some?
    && db.tasks[id].leaseUntil.Some?
    && db.tasks[id].leaseUntil.value < now
  }

  function ReapOne(db: Db, id: TaskId, now: int): (r: Outcome)
    ensures r.Ok? ==> |r.value.tasks| == |db.tasks|
  {
    var t :- Get(db, id);
    :- Need(Allowed(t.state, Ready, Leaf, Reaper), Denied);
    var row := t.(state := Ready, version := t.version + 1, updatedAt := now, claimedBy := None, leaseUntil := None);
    Ok(CloseWork(Write(db, id, row, t.state, Reaper, Plain), id, None, LostLease))
  }

  function ReapEach(db: Db, ids: seq<TaskId>, now: int): Outcome
    decreases |ids|
  {
    if |ids| == 0 then Ok(db)
    else
      var db1 :- ReapOne(db, ids[0], now);
      ReapEach(db1, ids[1..], now)
  }

  function Reap(db: Db, busy: set<TaskId>, now: int): Outcome {
    ReapEach(db, Select((i: TaskId) => Expired(db, i, now) && i !in busy, |db.tasks|), now)
  }

  predicate PlanStale(db: Db, id: TaskId, bound: int, now: int) {
    && id < |db.tasks|
    && db.tasks[id].state.Decomposing?
    && !db.tasks[id].kind.Leaf?
    && db.tasks[id].updatedAt + 1000 * bound < now
  }

  function ReleaseEach(db: Db, ids: seq<TaskId>, now: int): Outcome
    decreases |ids|
  {
    if |ids| == 0 then Ok(db)
    else
      var t :- Get(db, ids[0]);
      var row := t.(state := Ready, version := t.version + 1, updatedAt := now);
      ReleaseEach(Write(db, ids[0], row, Decomposing, Reaper, Plain), ids[1..], now)
  }

  function ReapDecomposing(db: Db, maxAgeSecs: int, busy: set<TaskId>, now: int): Outcome {
    ReleaseEach(db, Select((i: TaskId) => PlanStale(db, i, ClampLease(maxAgeSecs), now) && i !in busy, |db.tasks|), now)
  }

  // ---- (d) start, complete, fail, review ----

  function Start(db: Db, id: TaskId, owner: Owner, now: int): Outcome {
    var t :- Get(db, id);
    :- Need(t.claimedBy == Some(owner), LeaseLost);
    :- RequireState(t, Claimed);
    Transition(db, id, Running, Worker, now)
  }

  function Complete(db: Db, id: TaskId, owner: Owner, checked: bool, now: int): Outcome {
    var t :- Get(db, id);
    :- Need(t.claimedBy == Some(owner), LeaseLost);
    :- RequireState(t, Running);
    :- Need(checked, Invalid);
    var db1 :- Transition(db, id, InReview, Worker, now);
    Ok(CloseWork(db1, id, Some(owner), Pr))
  }

  function Fail(db: Db, id: TaskId, owner: Owner, timedOut: bool, checked: bool, now: int): Outcome
    requires Rooted(db)
  {
    var t :- Get(db, id);
    :- Need(t.claimedBy == Some(owner), LeaseLost);
    :- RequireState(t, Running);
    :- Need(checked, Invalid);
    var db1 :- Transition(db, id, Failed, Worker, now);
    var db2 := CloseWork(db1, id, Some(owner), if timedOut then TimedOut else Erred);
    var db3 :- BlockDependents(db2, id, t.parent, now);
    RollupFrom(db3, t.parent, now)
  }

  function ResolveReview(db: Db, id: TaskId, merged: bool, now: int): Outcome
    requires Rooted(db)
  {
    var t :- Get(db, id);
    :- RequireState(t, InReview);
    var db1 :- Transition(db, id, if merged then Done else Failed, Poller, now);
    var db2 :- if merged then Ok(db1) else BlockDependents(db1, id, t.parent, now);
    RollupFrom(db2, t.parent, now)
  }

  /** An observation on a leaf in review: an event, and no change to the row. */
  function ReviewNote(db: Db, id: TaskId, awaiting: bool): Outcome {
    var t :- Get(db, id);
    :- RequireState(t, InReview);
    if awaiting && HasAwaitingMark(db, id) then Ok(db)
    else Ok(Write(db, id, t, InReview, Poller, if awaiting then AwaitingPrApproval else PollError))
  }

  // ---- (e) approve, answer, retry, policy ----

  function Approve(db: Db, id: TaskId, expected: nat, actor: ActorClass, now: int): Outcome {
    var byUser := actor.User?;
    :- Need(byUser, Denied);
    var t :- Get(db, id);
    if t.state.InReview? then
      :- Cas(t, expected, InReview);
      Ok(Write(db, id, t, InReview, User, PrApproved))
    else
      :- Cas(t, expected, AwaitingApproval);
      Transition(db, id, Ready, User, now)
  }

  function ApproveEach(db: Db, ids: seq<TaskId>, now: int): Outcome
    decreases |ids|
  {
    if |ids| == 0 then Ok(db)
    else
      var c :- Get(db, ids[0]);
      if c.state.AwaitingApproval? then
        var db1 :- Transition(db, ids[0], Ready, User, now);
        ApproveEach(db1, ids[1..], now)
      else ApproveEach(db, ids[1..], now)
  }

  function ApproveChildren(db: Db, parent: TaskId, actor: ActorClass, now: int): Outcome {
    var byUser := actor.User?;
    :- Need(byUser, Denied);
    var _ :- Get(db, parent);
    ApproveEach(db, Kids(db, parent), now)
  }

  function Answer(db: Db, id: TaskId, expected: nat, actor: ActorClass, checked: bool, now: int): Outcome {
    var byUser := actor.User?;
    :- Need(byUser, Denied);
    var t :- Get(db, id);
    :- Cas(t, expected, AwaitingApproval);
    :- Need(checked, Invalid);
    Transition(db, id, Ready, User, now)
  }

  function Retry(db: Db, id: TaskId, actor: ActorClass, now: int): Outcome
    requires Rooted(db)
  {
    var byUser := actor.User?;
    :- Need(byUser, Denied);
    var t :- Get(db, id);
    :- Need(t.state.Failed? || t.state.Blocked?, Conflict);
    var db1 :- Transition(db, id, Ready, User, now);
    RollupFrom(db1, t.parent, now)
  }

  /** A version bump without a state change. */
  function UpdatePolicy(db: Db, id: TaskId, policy: Policy, actor: ActorClass, now: int): Outcome {
    var byUser := actor.User?;
    :- Need(byUser, Denied);
    :- Need(policy.Valid(), Invalid);
    var t :- Get(db, id);
    :- Need(t.Depth() == 0, Invalid);
    var row := t.(policy := Some(policy), version := t.version + 1, updatedAt := now);
    Ok(Write(db, id, row, t.state, User, PolicyUpdated))
  }

  // ---- (f) cancel, (g) replan ----

  function CancelEach(db: Db, ids: seq<TaskId>, now: int): (r: Outcome)
    ensures r.Ok? && Rooted(db) ==> Rooted(r.value)
    ensures r.Ok? ==> |r.value.tasks| == |db.tasks|
    decreases |ids|
  {
    if |ids| == 0 then Ok(db)
    else
      var t :- Get(db, ids[0]);
      if t.state.IsTerminal() then CancelEach(db, ids[1..], now)
      else
        var db1 :- Transition(db, ids[0], Cancelled, User, now);
        CancelEach(CloseWork(db1, ids[0], None, LostLease), ids[1..], now)
  }

  function Cancel(db: Db, id: TaskId, actor: ActorClass, now: int): Outcome
    requires Rooted(db)
  {
    var byUser := actor.User?;
    :- Need(byUser, Denied);
    var t :- Get(db, id);
    :- Need(!t.state.IsTerminal(), Conflict);
    var db1 :- CancelEach(db, Subtree(db, id), now);
    RollupFrom(db1, t.parent, now)
  }

  function SupersedeEach(db: Db, root: TaskId, ids: seq<TaskId>, now: int): (r: Outcome)
    ensures r.Ok? && Rooted(db) ==> Rooted(r.value)
    ensures r.Ok? ==> |r.value.tasks| == |db.tasks|
    decreases |ids|
  {
    if |ids| == 0 then Ok(db)
    else
      var t :- Get(db, ids[0]);
      if ids[0] == root || t.state.IsTerminal() then SupersedeEach(db, root, ids[1..], now)
      else
        var db1 :- Transition(db, ids[0], Superseded, User, now);
        var t1 :- Get(db1, ids[0]);
        var db2 := Put(db1, ids[0], t1.(supersededBy := Some(root)));
        SupersedeEach(CloseWork(db2, ids[0], None, LostLease), root, ids[1..], now)
  }

  function Replan(db: Db, id: TaskId, actor: ActorClass, now: int): Outcome {
    var byUser := actor.User?;
    :- Need(byUser, Denied);
    var t :- Get(db, id);
    :- Need(!t.kind.Leaf?, Denied);
    :- Need(t.state.Decomposed? || t.state.Blocked?, Conflict);
    var db1 :- SupersedeEach(db, id, Subtree(db, id), now);
    var db2 :- Transition(db1, id, Decomposing, User, now);
    :- Need(id < |db2.tasks|, NotFound);
    Ok(SetAttempts(db2, id, 0))
  }

  function Apply(db: Db, op: Op, now: int): Outcome
    requires Rooted(db)
  {
    match op
    case CreateOp(actor, draft, policy, checked) => Create(db, actor, draft, policy, checked, now)
    case PlanStartOp(task) => PlanStart(db, task, now)
    case DecomposeOp(task, expected, key, tokens, deps, checked) => Decompose(db, task, expected, key, tokens, deps, checked, now)
    case MarkLeafOp(task, expected, key, tokens, checked) => MarkLeaf(db, task, expected, key, tokens, checked, now)
    case PlanCloseOp(task, expected, key, tokens, result, checked) => PlanClose(db, task, expected, key, tokens, result, checked, now)
    case ClaimOp(limit, owner, leaseSecs, busy) => Claim(db, limit, owner, leaseSecs, busy, now)
    case HeartbeatOp(task, owner, leaseSecs) => Heartbeat(db, task, owner, leaseSecs, now)
    case ReapOp(busy) => Reap(db, busy, now)
    case ReapDecomposingOp(maxAgeSecs, busy) => ReapDecomposing(db, maxAgeSecs, busy, now)
    case StartOp(task, owner) => Start(db, task, owner, now)
    case CompleteOp(task, owner, checked) => Complete(db, task, owner, checked, now)
    case FailOp(task, owner, timedOut, checked) => Fail(db, task, owner, timedOut, checked, now)
    case ResolveReviewOp(task, merged) => ResolveReview(db, task, merged, now)
    case ReviewNoteOp(task, awaiting) => ReviewNote(db, task, awaiting)
    case ApproveOp(task, expected, actor) => Approve(db, task, expected, actor, now)
    case ApproveChildrenOp(task, actor) => ApproveChildren(db, task, actor, now)
    case AnswerOp(task, expected, actor, checked) => Answer(db, task, expected, actor, checked, now)
    case RetryOp(task, actor) => Retry(db, task, actor, now)
    case UpdatePolicyOp(task, policy, actor) => UpdatePolicy(db, task, policy, actor, now)
    case CancelOp(task, actor) => Cancel(db, task, actor, now)
    case ReplanOp(task, actor) => Replan(db, task, actor, now)
  }
}
