/** Every row that a committed call writes, it has locked first: the programs of locks leave no write out. */
module CampaignCoverage {
  import opened Outcomes
  import opened Collections
  import opened CampaignRules
  import opened CampaignTables
  import opened CampaignProtocols
  import opened CampaignInvariants
  import opened CampaignSafety
  import opened CampaignRuns
  import opened CampaignRollup
  import opened CampaignPass
  import opened CampaignEndings
  import opened CampaignSweeps
  import opened LockSystem
  import opened CampaignLocks
  import opened CampaignVerdicts

  ghost predicate LocksRow(locks: seq<Lock>, db: Db, i: TaskId)
    requires i < |db.tasks|
  {
    ForUpdate(db.tasks[i].path) in locks
  }

  /** Every row that has changed is among the locked ones. */
  ghost predicate WritesLocked(db: Db, db': Db, locks: seq<Lock>) {
    && |db.tasks| <= |db'.tasks|
    && forall i: TaskId | i < |db.tasks| && db'.tasks[i] != db.tasks[i] :: LocksRow(locks, db, i)
  }

  // ---- rows that are locked ----

  lemma {:induction false} AncestorsArePrefixes(db: Db, p: TaskId, q: TaskId)
    requires TreeOk(db) && p < |db.tasks| && OnChain(db, Some(p), q)
    ensures q < |db.tasks| && 1 <= |db.tasks[q].path| <= |db.tasks[p].path|
    ensures db.tasks[q].path == db.tasks[p].path[..|db.tasks[q].path|]
    decreases p
  {
    assert NodeOk(db, p);
    if p == q {
      assert db.tasks[p].path[..|db.tasks[p].path|] == db.tasks[p].path;
    } else {
      var up := db.tasks[p].parent.value;
      AncestorsArePrefixes(db, up, q);
      assert db.tasks[up].path[..|db.tasks[q].path|] == db.tasks[p].path[..|db.tasks[q].path|];
    }
  }

  lemma LineHoldsChain(db: Db, id: TaskId, q: TaskId)
    requires TreeOk(db) && id < |db.tasks| && (q == id || OnChain(db, db.tasks[id].parent, q))
    ensures q < |db.tasks| && LocksRow(Line(db.tasks[id].path), db, q)
  {
    ChainStep(db, id, q);
    AncestorsArePrefixes(db, id, q);
    LineHolds(db.tasks[id].path, |db.tasks[q].path|);
  }

  lemma {:induction false} KeepsAll(keep: TaskId -> bool, ids: seq<TaskId>, x: TaskId)
    requires x in ids && keep(x)
    ensures x in Keep(keep, ids)
  {
    if ids[0] != x {
      KeepsAll(keep, ids[1..], x);
    }
  }

  lemma RowsHold(db: Db, ids: seq<TaskId>, i: TaskId)
    requires (forall k | 0 <= k < |ids| :: ids[k] < |db.tasks|) && i in ids
    ensures i < |db.tasks| && LocksRow(Rows(db, ids), db, i)
  {
    var k :| 0 <= k < |ids| && ids[k] == i;
    assert Rows(db, ids)[k] == ForUpdate(db.tasks[i].path);
  }

  lemma DependentsAreListed(db: Db, id: TaskId, i: TaskId)
    requires Inv(db) && id < |db.tasks| && i < |db.tasks| && db.tasks[i].state.Ready? && id in db.tasks[i].dependsOn
    ensures LocksRow(Rows(db, Dependents(db, id)), db, i)
  {
    assert DepsAmongSiblings(db.tasks, db.tasks[i]);
    KidIsListed(db.tasks, i, |db.tasks|);
    KeepsAll((c: TaskId) => c < |db.tasks| && db.tasks[c].state.Ready? && id in db.tasks[c].dependsOn,
             Kids(db, db.tasks[id].parent.value), i);
    RowsHold(db, Dependents(db, id), i);
  }

  lemma WaitingAreListed(db: Db, p: TaskId, i: TaskId)
    requires i < |db.tasks| && db.tasks[i].parent == Some(p) && db.tasks[i].state.AwaitingApproval?
    ensures LocksRow(Rows(db, Waiting(db, p)), db, i)
  {
    KidIsListed(db.tasks, i, |db.tasks|);
    KeepsAll((c: TaskId) => c < |db.tasks| && db.tasks[c].state.AwaitingApproval?, Kids(db, p), i);
    RowsHold(db, Waiting(db, p), i);
  }

  lemma SubtreeIsListed(db: Db, id: TaskId, i: TaskId)
    requires id < |db.tasks| && i < |db.tasks| && db.tasks[id].path <= db.tasks[i].path
    ensures LocksRow(Rows(db, SubtreeRows(db, id)), db, i)
  {
    hide Subtree;
    SubtreeMembers(db, id);
    RowsHold(db, SubtreeRows(db, id), i);
  }

  // ---- call by call ----

  /** The call's own rows, and the line above its target. */
  lemma PassIsLocked(db: Db, db': Db, id: TaskId, own: set<TaskId>, locks: seq<Lock>, now: int)
    requires Rooted(db) && TreeOk(db) && id < |db.tasks| && PassedAbove(db, db', id, own, now)
    requires forall l | l in Line(db.tasks[id].path) :: l in locks
    requires forall i: TaskId | i < |db.tasks| && i in own :: LocksRow(locks, db, i)
    ensures WritesLocked(db, db', locks)
  {
    hide OnChain, RolledUp, Settles, Line, TreeOk, MovedBelow;
    forall i: TaskId | i < |db.tasks| && db'.tasks[i] != db.tasks[i]
      ensures LocksRow(locks, db, i)
    {
      if i !in own {
        LineHoldsChain(db, id, i);
      }
    }
  }

  lemma TargetIsLocked(db: Db, db': Db, id: TaskId, locks: seq<Lock>)
    requires OnlyRow(db, db', id) && LocksRow(locks, db, id)
    ensures WritesLocked(db, db', locks)
  {
  }

  /** A target that moves alone or with the pass above it. */
  lemma MoveIsLocked(db: Db, op: Op, db': Db, now: int)
    requires Inv(db) && Rooted(db) && (op.PlanStartOp? || op.PlanCloseOp? || op.RetryOp? || (op.ResolveReviewOp? && op.merged))
    requires op.task < |db.tasks| && (OnlyRow(db, db', op.task) || PassedAbove(db, db', op.task, {op.task}, now))
    ensures WritesLocked(db, db', Program(db, op, false))
  {
    hide Inv, TreeOk, Line, Upward, PassedAbove, WritesLocked;
    SoundTree(db);
    LineHoldsChain(db, op.task, op.task);
    var locks := Program(db, op, false);
    assert forall l | l in Line(db.tasks[op.task].path) :: l in locks;
    if OnlyRow(db, db', op.task) {
      TargetIsLocked(db, db', op.task, locks);
    } else {
      PassIsLocked(db, db', op.task, {op.task}, locks, now);
    }
  }

  lemma PlanIsLocked(db: Db, op: Op, now: int)
    requires Inv(db) && Rooted(db) && (op.PlanStartOp? || op.PlanCloseOp?) && Apply(db, op, now).Ok?
    ensures WritesLocked(db, Apply(db, op, now).value, Program(db, op, false))
  {
    hide Inv, PlanStart, PlanClose, WritesLocked, Program, PassedAbove, Becomes, EventsThenPass, PlansSpent;
    var db' := Apply(db, op, now).value;
    match op
    case PlanStartOp(id) => PlanStartEnds(db, id, now); MoveIsLocked(db, op, db', now);
    case PlanCloseOp(id, expected, key, tokens, result, checked) =>
      PlanCloseEnds(db, id, expected, key, tokens, result, checked, now); MoveIsLocked(db, op, db', now);
  }

  /** A failed leaf: the dependents are locked after the line. */
  lemma FailureIsLocked(db: Db, op: Op, db': Db, actor: ActorClass, now: int)
    requires Inv(db) && Rooted(db) && (op.FailOp? || (op.ResolveReviewOp? && !op.merged))
    requires FailsThenPass(db, db', op.task, actor, now)
    ensures WritesLocked(db, db', Program(db, op, false))
  {
    hide Inv, TreeOk, Program, ReadyDependentsAre, LocksRow, Line, PassedAbove, WritesLocked, Moves, EventsThenPass, Becomes;
    SoundTree(db);
    var id := op.task;
    var blocked :| ReadyDependentsAre(db, id, blocked) && PassedAbove(db, db', id, {id} + ToSet(blocked), now);
    BlockedAreLocked(db, op, blocked);
    PassIsLocked(db, db', id, {id} + ToSet(blocked), Program(db, op, false), now);
  }

  lemma BlockedAreLocked(db: Db, op: Op, blocked: seq<TaskId>)
    requires Inv(db) && Rooted(db) && (op.FailOp? || (op.ResolveReviewOp? && !op.merged)) && op.task < |db.tasks|
    requires ReadyDependentsAre(db, op.task, blocked)
    ensures forall l | l in Line(db.tasks[op.task].path) :: l in Program(db, op, false)
    ensures forall i: TaskId | i < |db.tasks| && i in {op.task} + ToSet(blocked) :: LocksRow(Program(db, op, false), db, i)
  {
    hide Inv, TreeOk, Line, Upward, Rows, Dependents;
    SoundTree(db);
    LineHoldsChain(db, op.task, op.task);
    forall i: TaskId | i < |db.tasks| && i in {op.task} + ToSet(blocked)
      ensures LocksRow(Program(db, op, false), db, i)
    {
      if i != op.task {
        DependentsAreListed(db, op.task, i);
      }
    }
  }

  lemma LeafIsLocked(db: Db, op: Op, now: int)
    requires Inv(db) && Rooted(db) && (op.FailOp? || op.ResolveReviewOp? || op.RetryOp?) && Apply(db, op, now).Ok?
    ensures WritesLocked(db, Apply(db, op, now).value, Program(db, op, false))
  {
    hide Inv, Fail, ResolveReview, Retry, WritesLocked, Program, FailsThenPass, PassedAbove, Becomes, EventsThenPass;
    var db' := Apply(db, op, now).value;
    match op
    case FailOp(id, owner, timedOut, checked) => FailEnds(db, id, owner, timedOut, checked, now); FailureIsLocked(db, op, db', Worker, now);
    case RetryOp(id, actor) => RetryEnds(db, id, actor, now); MoveIsLocked(db, op, db', now);
    case ResolveReviewOp(id, merged) =>
      if merged {
        MergeEnds(db, id, now);
        MoveIsLocked(db, op, db', now);
      } else {
        RejectionEnds(db, id, now);
        FailureIsLocked(db, op, db', Poller, now);
      }
  }

  lemma CancelIsLocked(db: Db, id: TaskId, actor: ActorClass, now: int)
    requires Inv(db) && Rooted(db) && Cancel(db, id, actor, now).Ok?
    ensures WritesLocked(db, Cancel(db, id, actor, now).value, Program(db, CancelOp(id, actor), false))
  {
    hide Inv, TreeOk, Cancel, Line, Upward, Rows, SubtreeRows, PassedAbove, WritesLocked, Moves, EventsThenPass, Becomes, WorkLost;
    SoundTree(db);
    CancelEnds(db, id, actor, now);
    var db' := Cancel(db, id, actor, now).value;
    var locks := Program(db, CancelOp(id, actor), false);
    var moved: seq<TaskId> :| (forall i: TaskId :: i in moved <==> LiveBelow(db, id, i)) && PassedAbove(db, db', id, ToSet(moved), now);
    forall i: TaskId | i < |db.tasks| && i in ToSet(moved)
      ensures LocksRow(locks, db, i)
    {
      SubtreeIsListed(db, id, i);
    }
    PassIsLocked(db, db', id, ToSet(moved), locks, now);
  }

  lemma ReplanIsLocked(db: Db, id: TaskId, actor: ActorClass, now: int)
    requires Replan(db, id, actor, now).Ok?
    ensures WritesLocked(db, Replan(db, id, actor, now).value, Program(db, ReplanOp(id, actor), false))
  {
    hide Replan, Line, Upward, Rows, SubtreeRows, Moves, Becomes, WorkLost;
    ReplanEnds(db, id, actor, now);
    var db' := Replan(db, id, actor, now).value;
    var locks := Program(db, ReplanOp(id, actor), false);
    forall i: TaskId | i < |db.tasks| && db'.tasks[i] != db.tasks[i]
      ensures LocksRow(locks, db, i)
    {
      assert i == id || LiveBelow(db, id, i);
      SubtreeIsListed(db, id, i);
    }
  }

  lemma ApprovalsAreLocked(db: Db, id: TaskId, actor: ActorClass, now: int)
    requires ApproveChildren(db, id, actor, now).Ok?
    ensures WritesLocked(db, ApproveChildren(db, id, actor, now).value, Program(db, ApproveChildrenOp(id, actor), false))
  {
    hide ApproveEach, Kids, Rows, Waiting, Moves, Named, Becomes;
    ApproveChildrenEnds(db, id, actor, now);
    var db' := ApproveChildren(db, id, actor, now).value;
    var moved: seq<TaskId> :| Swept(db, db', moved, Ready, User, now)
      && forall i: TaskId :: i in moved <==> i < |db.tasks| && db.tasks[i].parent == Some(id) && db.tasks[i].state.AwaitingApproval?;
    forall i: TaskId | i < |db.tasks| && db'.tasks[i] != db.tasks[i]
      ensures LocksRow(Program(db, ApproveChildrenOp(id, actor), false), db, i)
    {
      assert SweptRow(db.tasks[i], db'.tasks[i], i in moved, Ready, now);
      WaitingAreListed(db, id, i);
    }
  }

  /** The calls that lock and write their own row only. */
  lemma OwnRowIsLocked(db: Db, op: Op, db': Db)
    requires op.DecomposeOp? || op.MarkLeafOp? || op.HeartbeatOp? || op.StartOp? || op.CompleteOp?
      || op.ReviewNoteOp? || op.ApproveOp? || op.AnswerOp? || op.UpdatePolicyOp?
    requires op.task < |db.tasks| <= |db'.tasks| && forall i: TaskId | i < |db.tasks| && i != op.task :: db'.tasks[i] == db.tasks[i]
    ensures WritesLocked(db, db', Program(db, op, false))
  {
    assert Program(db, op, false)[0] == ForUpdate(db.tasks[op.task].path);
  }

  lemma PlannerIsLocked(db: Db, op: Op, now: int)
    requires Inv(db) && Rooted(db) && (op.DecomposeOp? || op.MarkLeafOp?) && Apply(db, op, now).Ok?
    ensures WritesLocked(db, Apply(db, op, now).value, Program(db, op, false))
  {
    hide Inv, Decompose, MarkLeaf, WritesLocked, Program, Becomes, IsNewChild;
    match op {
      case DecomposeOp(id, expected, key, tokens, deps, checked) => DecomposeEnds(db, id, expected, key, tokens, deps, checked, now);
      case MarkLeafOp(id, expected, key, tokens, checked) => MarkLeafEnds(db, id, expected, key, tokens, checked, now);
    }
    OwnRowIsLocked(db, op, Apply(db, op, now).value);
  }

  lemma LesseeIsLocked(db: Db, op: Op, now: int)
    requires Rooted(db) && (op.HeartbeatOp? || op.StartOp? || op.CompleteOp? || op.ReviewNoteOp?) && Apply(db, op, now).Ok?
    ensures WritesLocked(db, Apply(db, op, now).value, Program(db, op, false))
  {
    hide Heartbeat, Start, Complete, ReviewNote, WritesLocked, Program, Becomes;
    match op {
      case HeartbeatOp(id, owner, leaseSecs) => HeartbeatEnds(db, id, owner, leaseSecs, now);
      case StartOp(id, owner) => StartEnds(db, id, owner, now);
      case CompleteOp(id, owner, checked) => CompleteEnds(db, id, owner, checked, now);
      case ReviewNoteOp(id, awaiting) => ReviewNoteEnds(db, id, awaiting);
    }
    OwnRowIsLocked(db, op, Apply(db, op, now).value);
  }

  lemma UserIsLocked(db: Db, op: Op, now: int)
    requires Rooted(db) && (op.ApproveOp? || op.AnswerOp? || op.UpdatePolicyOp?) && Apply(db, op, now).Ok?
    ensures WritesLocked(db, Apply(db, op, now).value, Program(db, op, false))
  {
    hide Approve, Answer, UpdatePolicy, WritesLocked, Program, Becomes;
    match op {
      case ApproveOp(id, expected, actor) => ApproveEnds(db, id, expected, actor, now);
      case AnswerOp(id, expected, actor, checked) => AnswerEnds(db, id, expected, actor, checked, now);
      case UpdatePolicyOp(id, policy, actor) => UpdatePolicyEnds(db, id, policy, actor, now);
    }
    OwnRowIsLocked(db, op, Apply(db, op, now).value);
  }

  lemma CreationIsLocked(db: Db, op: Op, now: int)
    requires Rooted(db) && op.CreateOp? && Apply(db, op, now).Ok?
    ensures WritesLocked(db, Apply(db, op, now).value, [])
  {
    hide Create;
    CreateEnds(db, op.actor, op.draft, op.policy, op.checked, now);
  }

  /**
   * Of the rows that are there before a call that waits for its locks, a commit changes only such as the call
   * has locked: its target, its dependents or subtree, and every ancestor that the rollup pass reaches.
   */
  lemma EveryWriteIsLocked(db: Db, op: Op, now: int)
    requires Inv(db) && Rooted(db) && !Skips(op) && Apply(db, op, now).Ok?
    ensures WritesLocked(db, Apply(db, op, now).value, Program(db, op, false))
  {
    hide Inv, WritesLocked, Cancel, Replan, ApproveChildren, Create, PlanStart, Decompose, MarkLeaf, PlanClose, Claim, Heartbeat, Reap,
      ReapDecomposing, Start, Complete, Fail, ResolveReview, ReviewNote, Approve, Answer, Retry, UpdatePolicy;
    match op
    case CreateOp(_, _, _, _) => CreationIsLocked(db, op, now);
    case CancelOp(id, actor) => CancelIsLocked(db, id, actor, now);
    case ReplanOp(id, actor) => ReplanIsLocked(db, id, actor, now);
    case ApproveChildrenOp(id, actor) => ApprovalsAreLocked(db, id, actor, now);
    case _ =>
      if op.PlanStartOp? || op.PlanCloseOp? {
        PlanIsLocked(db, op, now);
      } else if op.FailOp? || op.ResolveReviewOp? || op.RetryOp? {
        LeafIsLocked(db, op, now);
      } else if op.DecomposeOp? || op.MarkLeafOp? {
        PlannerIsLocked(db, op, now);
      } else if op.ApproveOp? || op.AnswerOp? || op.UpdatePolicyOp? {
        UserIsLocked(db, op, now);
      } else {
        LesseeIsLocked(db, op, now);
      }
  }

  // ---- and nothing is locked without need ----

  /** The row is on the line from the root to the call's target. */
  ghost predicate OnLine(db: Db, op: Op, row: Path) {
    Aims(db, op) && 1 <= |row| <= |db.tasks[op.task].path| && row == db.tasks[op.task].path[..|row|]
  }

  /** The row is in a set of rows that the call may have to write: dependents, waiting children, or a subtree. */
  ghost predicate MayWrite(db: Db, op: Op, i: TaskId) {
    && Aims(db, op) && i < |db.tasks|
    && var t := db.tasks[i];
      || ((op.FailOp? || (op.ResolveReviewOp? && !op.merged)) && t.state.Ready? && op.task in t.dependsOn)
      || (op.ApproveChildrenOp? && t.parent == Some(op.task) && t.state.AwaitingApproval?)
      || ((op.CancelOp? || op.ReplanOp?) && db.tasks[op.task].path <= t.path)
  }

  ghost predicate Needed(db: Db, op: Op, l: Lock) {
    l.ForUpdate? && (OnLine(db, op, l.row) || exists i: TaskId :: MayWrite(db, op, i) && db.tasks[i].path == l.row)
  }

  ghost predicate AllNeeded(db: Db, op: Op, locks: seq<Lock>) {
    forall k | 0 <= k < |locks| :: Needed(db, op, locks[k])
  }

  lemma LineIsNeeded(db: Db, op: Op)
    requires Aims(db, op)
    ensures AllNeeded(db, op, Line(db.tasks[op.task].path)) && AllNeeded(db, op, Upward(db.tasks[op.task].path))
  {
    hide MayWrite;
  }

  lemma OwnRowIsNeeded(db: Db, op: Op)
    requires Aims(db, op) && |db.tasks[op.task].path| > 0
    ensures AllNeeded(db, op, [ForUpdate(db.tasks[op.task].path)])
  {
    hide MayWrite;
    assert db.tasks[op.task].path[..|db.tasks[op.task].path|] == db.tasks[op.task].path;
  }

  lemma RowsAreNeeded(db: Db, op: Op, ids: seq<TaskId>)
    requires (forall k | 0 <= k < |ids| :: ids[k] < |db.tasks|) && forall k | 0 <= k < |ids| :: MayWrite(db, op, ids[k])
    ensures AllNeeded(db, op, Rows(db, ids))
  {
    hide MayWrite, OnLine;
  }

  lemma NeededThen(db: Db, op: Op, a: seq<Lock>, b: seq<Lock>)
    requires AllNeeded(db, op, a) && AllNeeded(db, op, b)
    ensures AllNeeded(db, op, a + b)
  {
    hide Needed;
  }

  /** A call asks for no row lock but on its target, the target's ancestors, and rows that it may have to write. */
  lemma NothingElseIsLocked(db: Db, op: Op)
    requires Inv(db)
    ensures AllNeeded(db, op, Program(db, op, false))
  {
    hide Inv, AllNeeded, Line, Upward, Rows, Dependents, Waiting, SubtreeRows, MayWrite;
    if !Aims(db, op) {
      NothingIsNeeded(db, op);
    } else {
      var id := op.task;
      var path := db.tasks[id].path;
      PathIsThere(db, id);
      LineIsNeeded(db, op);
      OwnRowIsNeeded(db, op);
      ExtrasAreNeeded(db, op);
      match op
      case FailOp(_, _, _, _) =>
        NeededThen(db, op, Line(path), Rows(db, Dependents(db, id)));
        NeededThen(db, op, Line(path) + Rows(db, Dependents(db, id)), Upward(path));
      case ResolveReviewOp(_, merged) =>
        var middle := if merged then [] else Rows(db, Dependents(db, id));
        NothingIsNeeded(db, op);
        NeededThen(db, op, Line(path), middle);
        NeededThen(db, op, Line(path) + middle, Upward(path));
      case CancelOp(_, _) =>
        NeededThen(db, op, Line(path), Rows(db, SubtreeRows(db, id)));
        NeededThen(db, op, Line(path) + Rows(db, SubtreeRows(db, id)), Upward(path));
      case ReplanOp(_, _) => NeededThen(db, op, Line(path), Rows(db, SubtreeRows(db, id)));
      case ApproveChildrenOp(_, _) => NeededThen(db, op, [ForUpdate(path)], Rows(db, Waiting(db, id)));
      case DecomposeOp(_, _, _, _, _, _) => NothingIsNeeded(db, op); NeededThen(db, op, [ForUpdate(path)], []);
      case _ => NeededThen(db, op, Line(path), Upward(path));
    }
  }

  lemma NothingIsNeeded(db: Db, op: Op)
    ensures AllNeeded(db, op, [])
  {
  }

  lemma PathIsThere(db: Db, id: TaskId)
    requires Inv(db) && id < |db.tasks|
    ensures |db.tasks[id].path| > 0
  {
    assert NodeOk(db, id);
  }

  lemma ExtrasAreNeeded(db: Db, op: Op)
    requires Aims(db, op)
    ensures op.FailOp? || (op.ResolveReviewOp? && !op.merged) ==> AllNeeded(db, op, Rows(db, Dependents(db, op.task)))
    ensures op.ApproveChildrenOp? ==> AllNeeded(db, op, Rows(db, Waiting(db, op.task)))
    ensures op.CancelOp? || op.ReplanOp? ==> AllNeeded(db, op, Rows(db, SubtreeRows(db, op.task)))
  {
    hide AllNeeded, Rows, Subtree;
    var id := op.task;
    if op.FailOp? || (op.ResolveReviewOp? && !op.merged) {
      RowsAreNeeded(db, op, Dependents(db, id));
    } else if op.ApproveChildrenOp? {
      RowsAreNeeded(db, op, Waiting(db, id));
    } else if op.CancelOp? || op.ReplanOp? {
      SubtreeMembers(db, id);
      assert forall k | 0 <= k < |Subtree(db, id)| :: Subtree(db, id)[k] in Subtree(db, id);
      RowsAreNeeded(db, op, SubtreeRows(db, id));
    }
  }

  /**
   * A call that is refused for the version, the state or the owner of its row holds that row by then. The
   * exceptions look before they lock: `plan_start` and `cancel` at the state, and a heartbeat, which is one
   * statement.
   */
  lemma JudgedUnderLock(db: Db, op: Op, now: int)
    requires Aims(db, op) && (Refusal(db, op, now) == Some(Conflict) || Refusal(db, op, now) == Some(LeaseLost))
    requires !op.PlanStartOp? && !op.CancelOp? && !op.HeartbeatOp? && |db.tasks[op.task].path| > 0
    ensures LocksRow(Refused(db, op), db, op.task)
  {
    hide KeysTaken, BatchFits;
    var path := db.tasks[op.task].path;
    assert path[..|path|] == path;
    LineHolds(path, |path|);
    KeysAgree(db, if op.DecomposeOp? || op.MarkLeafOp? || op.PlanCloseOp? then op.key else IdemKey(0, 0, 0, 0));
    assert [ForUpdate(path)][0] == ForUpdate(path);
  }
}
