/**
 * What one protocol may change in a row, in the event log and in the attempts table.
 *
 * Both logs only grow and no row leaves. A row's version never falls, and rises when its state changes. A
 * row's owner is kept, or cleared, or set by a claim that picked the row. The counter of planning attempts
 * moves only on the protocol's target, by a recorded planning error or a replan.
 *
 * Every row but the target is a bystander: its state may move and its lease may end, but it gains no owner,
 * enters no planning and keeps its counter. A protocol without a target of its own is quiet: all rows are
 * bystanders.
 *
 * `ApplyEffects` states this for every protocol; the results over runs are inductions on it.
 */
module CampaignEffects {
  import opened Outcomes
  import opened Collections
  import opened CampaignRules
  import opened CampaignTables
  import opened CampaignProtocols
  import opened CampaignInvariants
  import opened CampaignSafety

  /** A row's history only goes forward, and a state change always has its own version. */
  predicate Forward(t: Task, t': Task) {
    && SameIdentity(t, t')
    && t.version <= t'.version
    && (t.version == t'.version ==> t'.state == t.state)
  }

  /** The change that no protocol's target alone explains: a lease may end, and nothing else is given. */
  predicate Bystander(t: Task, t': Task) {
    && Forward(t, t')
    && t'.policy == t.policy
    && t'.attempts == t.attempts
    && (t'.claimedBy == t.claimedBy || t'.claimedBy.None?)
    && (t'.state.Decomposing? ==> t.state.Decomposing?)
  }

  /** Events are only appended, and an attempt that is closed stays as it is. */
  ghost predicate AppendOnly(db: Db, db': Db) {
    && db.events <= db'.events
    && |db.attempts| <= |db'.attempts|
    && forall a | 0 <= a < |db.attempts| ::
      db'.attempts[a] == db.attempts[a]
      || (db.attempts[a].outcome.Pending? && db'.attempts[a] == db.attempts[a].(outcome := db'.attempts[a].outcome))
  }

  /** A row inserted by the protocol: never planned, never claimed. */
  predicate Newborn(t: Task) {
    t.attempts == 0 && !t.state.Decomposing? && t.claimedBy.None?
  }

  ghost predicate Quiet(db: Db, db': Db) {
    && |db.tasks| <= |db'.tasks|
    && (forall i: TaskId | i < |db.tasks| :: Bystander(db.tasks[i], db'.tasks[i]))
    && (forall i: TaskId | |db.tasks| <= i < |db'.tasks| :: Newborn(db'.tasks[i]))
    && AppendOnly(db, db')
  }

  /** Every row but `id` is a bystander. */
  ghost predicate QuietBut(db: Db, db': Db, id: TaskId) {
    && |db.tasks| <= |db'.tasks|
    && (forall i: TaskId | i < |db.tasks| && i != id :: Bystander(db.tasks[i], db'.tasks[i]))
    && (forall i: TaskId | |db.tasks| <= i < |db'.tasks| :: Newborn(db'.tasks[i]))
    && AppendOnly(db, db')
  }

  lemma AppendOnlyThen(a: Db, b: Db, c: Db)
    requires AppendOnly(a, b) && AppendOnly(b, c)
    ensures AppendOnly(a, c)
  {
    forall k | 0 <= k < |a.attempts|
      ensures c.attempts[k] == a.attempts[k]
        || (a.attempts[k].outcome.Pending? && c.attempts[k] == a.attempts[k].(outcome := c.attempts[k].outcome))
    {
      assert b.attempts[k] == a.attempts[k]
        || b.attempts[k] == a.attempts[k].(outcome := b.attempts[k].outcome);
      assert c.attempts[k] == b.attempts[k]
        || c.attempts[k] == b.attempts[k].(outcome := c.attempts[k].outcome);
    }
  }

  lemma QuietThen(a: Db, b: Db, c: Db)
    requires Quiet(a, b) && Quiet(b, c)
    ensures Quiet(a, c)
  {
    AppendOnlyThen(a, b, c);
    forall i: TaskId | |a.tasks| <= i < |c.tasks|
      ensures Newborn(c.tasks[i])
    {
      assert i < |b.tasks| ==> Bystander(b.tasks[i], c.tasks[i]);
    }
    forall i: TaskId | i < |a.tasks|
      ensures Bystander(a.tasks[i], c.tasks[i])
    {
      assert Bystander(a.tasks[i], b.tasks[i]) && Bystander(b.tasks[i], c.tasks[i]);
    }
  }

  lemma QuietButThen(a: Db, b: Db, c: Db, id: TaskId)
    requires id < |a.tasks| && QuietBut(a, b, id) && QuietBut(b, c, id)
    ensures QuietBut(a, c, id)
  {
    AppendOnlyThen(a, b, c);
    forall i: TaskId | |a.tasks| <= i < |c.tasks|
      ensures Newborn(c.tasks[i])
    {
      assert i < |b.tasks| ==> Bystander(b.tasks[i], c.tasks[i]);
    }
    forall i: TaskId | i < |a.tasks| && i != id
      ensures Bystander(a.tasks[i], c.tasks[i])
    {
      assert Bystander(a.tasks[i], b.tasks[i]) && Bystander(b.tasks[i], c.tasks[i]);
    }
  }

  lemma NothingIsQuiet(db: Db)
    ensures Quiet(db, db)
  {
  }

  lemma QuietIsQuietBut(db: Db, db': Db, id: TaskId)
    requires Quiet(db, db')
    ensures QuietBut(db, db', id)
    ensures id < |db.tasks| ==> Bystander(db.tasks[id], db'.tasks[id])
  {
  }

  lemma AttemptIsQuiet(db: Db, a: Attempt)
    ensures Quiet(db, db.(attempts := db.attempts + [a]))
  {
  }

  lemma CounterIsQuiet(db: Db, id: TaskId, attempts: nat)
    requires id < |db.tasks|
    ensures QuietBut(db, SetAttempts(db, id, attempts), id)
  {
  }

  /** One row is written with its event. */
  lemma WriteIsQuiet(db: Db, id: TaskId, row: Task, from: TaskState, actor: ActorClass, note: Note)
    requires id < |db.tasks| && Bystander(db.tasks[id], row)
    ensures Quiet(db, Write(db, id, row, from, actor, note))
  {
  }

  lemma TransitionIsQuiet(db: Db, id: TaskId, to: TaskState, actor: ActorClass, now: int)
    requires Transition(db, id, to, actor, now).Ok?
    ensures QuietBut(db, Transition(db, id, to, actor, now).value, id)
    ensures !to.Decomposing? ==> Quiet(db, Transition(db, id, to, actor, now).value)
    ensures Transition(db, id, to, actor, now).value.tasks[id].state == to
  {
  }

  lemma ReleasingIsQuiet(db: Db, id: TaskId, to: TaskState, actor: ActorClass, now: int, owner: Option<Owner>, outcome: AttemptOutcome)
    requires Transition(db, id, to, actor, now).Ok? && !to.Decomposing?
    ensures Quiet(db, CloseWork(Transition(db, id, to, actor, now).value, id, owner, outcome))
  {
  }

  lemma {:induction false} RollupIsQuiet(db: Db, parent: Option<TaskId>, now: int)
    requires Rooted(db) && (parent.Some? ==> parent.value < |db.tasks|)
    requires RollupFrom(db, parent, now).Ok?
    ensures Quiet(db, RollupFrom(db, parent, now).value)
    decreases if parent.Some? then parent.value + 1 else 0
  {
    if parent.Some? {
      var p := db.tasks[parent.value];
      var next := Rollup(p.state, KidStates(db, parent.value));
      if next.Some? {
        var db1 := Transition(db, parent.value, next.value, RollupPass, now).value;
        TransitionIsQuiet(db, parent.value, next.value, RollupPass, now);
        RollupIsQuiet(db1, p.parent, now);
        QuietThen(db, db1, RollupFrom(db, parent, now).value);
      }
    }
  }

  lemma {:induction false} BlockEachIsQuiet(db: Db, leaf: TaskId, sibs: seq<TaskId>, now: int)
    requires BlockEach(db, leaf, sibs, now).Ok?
    ensures Quiet(db, BlockEach(db, leaf, sibs, now).value)
    decreases |sibs|
  {
    if |sibs| > 0 {
      if db.tasks[sibs[0]].state.Ready? && leaf in db.tasks[sibs[0]].dependsOn {
        var db1 := Transition(db, sibs[0], Blocked, RollupPass, now).value;
        TransitionIsQuiet(db, sibs[0], Blocked, RollupPass, now);
        BlockEachIsQuiet(db1, leaf, sibs[1..], now);
        QuietThen(db, db1, BlockEach(db, leaf, sibs, now).value);
      } else {
        BlockEachIsQuiet(db, leaf, sibs[1..], now);
      }
    }
  }

  lemma {:induction false} ApproveEachIsQuiet(db: Db, ids: seq<TaskId>, now: int)
    requires ApproveEach(db, ids, now).Ok?
    ensures Quiet(db, ApproveEach(db, ids, now).value)
    decreases |ids|
  {
    if |ids| > 0 {
      if db.tasks[ids[0]].state.AwaitingApproval? {
        var db1 := Transition(db, ids[0], Ready, User, now).value;
        TransitionIsQuiet(db, ids[0], Ready, User, now);
        ApproveEachIsQuiet(db1, ids[1..], now);
        QuietThen(db, db1, ApproveEach(db, ids, now).value);
      } else {
        ApproveEachIsQuiet(db, ids[1..], now);
      }
    }
  }

  lemma ReapOneIsQuiet(db: Db, id: TaskId, now: int)
    requires ReapOne(db, id, now).Ok?
    ensures Quiet(db, ReapOne(db, id, now).value)
  {
  }

  lemma {:induction false} ReapEachIsQuiet(db: Db, ids: seq<TaskId>, now: int)
    requires ReapEach(db, ids, now).Ok?
    ensures Quiet(db, ReapEach(db, ids, now).value)
    decreases |ids|
  {
    hide Quiet, ReapOne;
    if |ids| == 0 {
      NothingIsQuiet(db);
    } else {
      var db1 := ReapOne(db, ids[0], now).value;
      ReapOneIsQuiet(db, ids[0], now);
      ReapEachIsQuiet(db1, ids[1..], now);
      QuietThen(db, db1, ReapEach(db, ids, now).value);
    }
  }

  lemma {:induction false} ReleaseEachIsQuiet(db: Db, ids: seq<TaskId>, now: int)
    requires ReleaseEach(db, ids, now).Ok?
    ensures Quiet(db, ReleaseEach(db, ids, now).value)
    decreases |ids|
  {
    hide Quiet, Write;
    if |ids| == 0 {
      NothingIsQuiet(db);
    } else {
      var t := db.tasks[ids[0]];
      var db1 := Write(db, ids[0], t.(state := Ready, version := t.version + 1, updatedAt := now), Decomposing, Reaper, Plain);
      WriteIsQuiet(db, ids[0], t.(state := Ready, version := t.version + 1, updatedAt := now), Decomposing, Reaper, Plain);
      ReleaseEachIsQuiet(db1, ids[1..], now);
      QuietThen(db, db1, ReleaseEach(db, ids, now).value);
    }
  }

  lemma {:induction false} CancelEachIsQuiet(db: Db, ids: seq<TaskId>, now: int)
    requires CancelEach(db, ids, now).Ok?
    ensures Quiet(db, CancelEach(db, ids, now).value)
    decreases |ids|
  {
    if |ids| > 0 {
      if db.tasks[ids[0]].state.IsTerminal() {
        CancelEachIsQuiet(db, ids[1..], now);
      } else {
        var db1 := CloseWork(Transition(db, ids[0], Cancelled, User, now).value, ids[0], None, LostLease);
        ReleasingIsQuiet(db, ids[0], Cancelled, User, now, None, LostLease);
        CancelEachIsQuiet(db1, ids[1..], now);
        QuietThen(db, db1, CancelEach(db, ids, now).value);
      }
    }
  }

  lemma SupersedeOneIsQuiet(db: Db, root: TaskId, id: TaskId, now: int)
    requires Transition(db, id, Superseded, User, now).Ok?
    ensures var db1 := Transition(db, id, Superseded, User, now).value;
      Quiet(db, CloseWork(Put(db1, id, db1.tasks[id].(supersededBy := Some(root))), id, None, LostLease))
  {
  }

  lemma {:induction false} SupersedeEachIsQuiet(db: Db, root: TaskId, ids: seq<TaskId>, now: int)
    requires SupersedeEach(db, root, ids, now).Ok?
    ensures Quiet(db, SupersedeEach(db, root, ids, now).value)
    decreases |ids|
  {
    if |ids| > 0 {
      hide Quiet, CloseWork;
      if ids[0] == root || db.tasks[ids[0]].state.IsTerminal() {
        SupersedeEachIsQuiet(db, root, ids[1..], now);
      } else {
        var db1 := Transition(db, ids[0], Superseded, User, now).value;
        var db2 := CloseWork(Put(db1, ids[0], db1.tasks[ids[0]].(supersededBy := Some(root))), ids[0], None, LostLease);
        SupersedeOneIsQuiet(db, root, ids[0], now);
        SupersedeEachIsQuiet(db2, root, ids[1..], now);
        QuietThen(db, db2, SupersedeEach(db, root, ids, now).value);
      }
    }
  }

  lemma InsertIsQuiet(db: Db, t: Task)
    requires Newborn(t)
    ensures Quiet(db, InsertTask(db, t, Planner)) && InsertTask(db, t, Planner).tasks == db.tasks + [t]
  {
  }

  lemma {:induction false} AddKidsIsQuiet(db: Db, id: TaskId, state: TaskState, maxOrd: nat, base: TaskId, deps: seq<seq<nat>>, i: nat, now: int)
    requires i <= |deps| && id < |db.tasks| && AddKids(db, id, state, maxOrd, base, deps, i, now).Ok?
    requires !state.Decomposing?
    ensures Quiet(db, AddKids(db, id, state, maxOrd, base, deps, i, now).value)
    decreases |deps| - i
  {
    hide Quiet, InsertTask, ChildPath;
    if i == |deps| {
      NothingIsQuiet(db);
    } else {
      var path := ChildPath(db.tasks[id].path, maxOrd + i + 1).value;
      var kid := NewKid(db.tasks[id], id, path, state, base, deps[i], now);
      var db1 := InsertTask(db, kid, Planner);
      InsertIsQuiet(db, kid);
      AddKidsIsQuiet(db1, id, state, maxOrd, base, deps, i + 1, now);
      QuietThen(db, db1, AddKids(db, id, state, maxOrd, base, deps, i, now).value);
    }
  }

  /** A claim leases the listed rows to its owner, each once, and touches no other row. */
  lemma {:induction false} ClaimEachGives(db: Db, ids: seq<TaskId>, position: nat, owner: Owner, lease: int, now: int)
    requires ClaimEach(db, ids, position, owner, lease, now).Ok? && Distinct(ids)
    ensures var db' := ClaimEach(db, ids, position, owner, lease, now).value;
      && |db'.tasks| == |db.tasks| && AppendOnly(db, db')
      && (forall i: TaskId | i < |db.tasks| && i !in ids :: db'.tasks[i] == db.tasks[i])
      && (forall i: TaskId | i < |db.tasks| && i in ids ::
            db'.tasks[i] == db.tasks[i].(state := Claimed, version := db.tasks[i].version + 1, updatedAt := now,
                                         claimedBy := Some(owner), leaseUntil := Some(now + 1000 * lease)))
    decreases |ids|
  {
    if |ids| > 0 {
      var db1 := ClaimOne(db, ids[0], position, owner, lease, now).value;
      ClaimEachGives(db1, ids[1..], position + 1, owner, lease, now);
      AppendOnlyThen(db, db1, ClaimEach(db, ids, position, owner, lease, now).value);
      assert ids[0] !in ids[1..];
      assert forall x :: x in ids <==> x == ids[0] || x in ids[1..];
    }
  }

  // ---- one protocol ----

  /** The claim gives `id` to its owner. */
  ghost predicate GivesClaim(db: Db, op: Op, id: TaskId) {
    op.ClaimOp? && op.limit > 0 && id in Candidates(db, op.limit, op.busy)
  }

  predicate RecordsPlanError(op: Op, id: TaskId) {
    op.PlanCloseOp? && op.task == id && op.result.Errs?
  }

  predicate Replans(op: Op, id: TaskId) {
    op.ReplanOp? && op.task == id
  }

  function AttemptLimit(db: Db, t: Task): Option<int> {
    match PolicyOf(db, t.campaign)
    case Ok(policy) => Some(policy.maxPlanAttempts)
    case Err(_) => None
  }

  /** Everything a committed protocol can do to the row `id`. */
  ghost predicate RowEffect(db: Db, op: Op, id: TaskId, t': Task)
    requires id < |db.tasks|
  {
    var t := db.tasks[id];
    && Forward(t, t')
    && (t'.policy == t.policy || (op.UpdatePolicyOp? && op.task == id))
    && t'.attempts == (if RecordsPlanError(op, id) then t.attempts + 1 else if Replans(op, id) then 0 else t.attempts)
    && (t'.claimedBy == t.claimedBy || t'.claimedBy.None? || (GivesClaim(db, op, id) && t'.claimedBy == Some(op.owner)))
    && (t'.state.Decomposing? ==>
          || (t.state.Decomposing? && !RecordsPlanError(op, id))
          || Replans(op, id)
          || (op == PlanStartOp(id) && AttemptLimit(db, t).Some? && t.attempts < AttemptLimit(db, t).value))
    && (RecordsPlanError(op, id) ==> t.state.Decomposing?)
  }

  ghost predicate Effects(db: Db, op: Op, db': Db) {
    && |db.tasks| <= |db'.tasks|
    && (forall i: TaskId | i < |db.tasks| :: RowEffect(db, op, i, db'.tasks[i]))
    && (forall i: TaskId | |db.tasks| <= i < |db'.tasks| :: Newborn(db'.tasks[i]))
    && AppendOnly(db, db')
  }

  lemma QuietEffects(db: Db, op: Op, db': Db)
    requires Quiet(db, db') && !op.PlanCloseOp? && !op.ReplanOp?
    ensures Effects(db, op, db')
  {
    forall i: TaskId | i < |db.tasks|
      ensures RowEffect(db, op, i, db'.tasks[i])
    {
      assert Bystander(db.tasks[i], db'.tasks[i]);
    }
  }

  lemma TargetEffects(db: Db, op: Op, id: TaskId, db': Db)
    requires id < |db.tasks| && QuietBut(db, db', id) && RowEffect(db, op, id, db'.tasks[id])
    requires forall i: TaskId | i != id :: !RecordsPlanError(op, i) && !Replans(op, i)
    ensures Effects(db, op, db')
  {
    forall i: TaskId | i < |db.tasks|
      ensures RowEffect(db, op, i, db'.tasks[i])
    {
      if i != id {
        assert Bystander(db.tasks[i], db'.tasks[i]);
      }
    }
  }

  lemma PlanStartEffects(db: Db, id: TaskId, now: int)
    requires Rooted(db) && PlanStart(db, id, now).Ok?
    ensures Effects(db, PlanStartOp(id), PlanStart(db, id, now).value)
  {
    var t := db.tasks[id];
    var policy := PolicyOf(db, t.campaign).value;
    if t.attempts >= policy.maxPlanAttempts || PlanTokens(db, t.campaign, |db.attempts|) >= policy.maxPlanTokens {
      BlockPlanIsQuiet(db, id, t.parent, now);
      QuietEffects(db, PlanStartOp(id), PlanStart(db, id, now).value);
    } else {
      TransitionIsQuiet(db, id, Decomposing, Planner, now);
      TargetEffects(db, PlanStartOp(id), id, PlanStart(db, id, now).value);
    }
  }

  lemma BlockPlanIsQuiet(db: Db, id: TaskId, parent: Option<TaskId>, now: int)
    requires Rooted(db) && (parent.Some? ==> parent.value < |db.tasks|)
    requires BlockPlan(db, id, parent, now).Ok?
    ensures Quiet(db, BlockPlan(db, id, parent, now).value)
    ensures parent.Some? && parent.value < id ==> !BlockPlan(db, id, parent, now).value.tasks[id].state.Decomposing?
    ensures parent.None? ==> !BlockPlan(db, id, parent, now).value.tasks[id].state.Decomposing?
  {
    var db1 := Transition(db, id, Blocked, Planner, now).value;
    TransitionIsQuiet(db, id, Blocked, Planner, now);
    RollupIsQuiet(db1, parent, now);
    assert Bystander(db1.tasks[id], RollupFrom(db1, parent, now).value.tasks[id]);
    QuietThen(db, db1, BlockPlan(db, id, parent, now).value);
  }

  lemma PlanCloseEffects(db: Db, op: Op, now: int)
    requires Rooted(db) && op.PlanCloseOp? && Apply(db, op, now).Ok?
    ensures Effects(db, op, Apply(db, op, now).value)
  {
    hide Effects, PlanClose;
    if op.result.Errs? {
      PlanErrorEffects(db, op, now);
    } else {
      PlanEndEffects(db, op, now);
    }
  }

  /** A recorded error: the counter moves on the node, and nothing else of note. */
  lemma PlanErrorEffects(db: Db, op: Op, now: int)
    requires Rooted(db) && op.PlanCloseOp? && op.result.Errs? && Apply(db, op, now).Ok?
    ensures Effects(db, op, Apply(db, op, now).value)
  {
    hide Effects, AppendOnly, Quiet, QuietBut, Transition, BlockPlan, PlanClose, PolicyOf;
    var id := op.task;
    var db' := Apply(db, op, now).value;
    var db1 := PlanCloseUnfolds(db, id, op.expected, op.key, op.tokens, op.result, op.checked, now);
    var t := db.tasks[id];
    var db2 := SetAttempts(db1, id, t.attempts + 1);
    AttemptIsQuiet(db, Attempt(id, Planning, op.key, None, CloseOutcome(op.result), op.tokens));
    QuietIsQuietBut(db, db1, id);
    CounterIsQuiet(db1, id, t.attempts + 1);
    QuietButThen(db, db1, db2, id);
    if t.attempts + 1 >= PolicyOf(db1, t.campaign).value.maxPlanAttempts {
      BlockPlanIsQuiet(db2, id, t.parent, now);
    } else {
      TransitionIsQuiet(db2, id, Ready, Planner, now);
    }
    QuietIsQuietBut(db2, db', id);
    QuietButThen(db, db2, db', id);
    TargetEffects(db, op, id, db');
  }

  lemma PlanEndEffects(db: Db, op: Op, now: int)
    requires Rooted(db) && op.PlanCloseOp? && !op.result.Errs? && Apply(db, op, now).Ok?
    ensures Effects(db, op, Apply(db, op, now).value)
  {
    hide Effects, AppendOnly, Quiet, QuietBut, Transition, BlockPlan, PlanClose;
    var id := op.task;
    var db' := Apply(db, op, now).value;
    var db1 := PlanCloseUnfolds(db, id, op.expected, op.key, op.tokens, op.result, op.checked, now);
    AttemptIsQuiet(db, Attempt(id, Planning, op.key, None, CloseOutcome(op.result), op.tokens));
    if op.result.AsksForInfo? {
      TransitionIsQuiet(db1, id, AwaitingApproval, Planner, now);
    } else {
      BlockPlanIsQuiet(db1, id, db.tasks[id].parent, now);
    }
    QuietThen(db, db1, db');
    QuietIsQuietBut(db, db', id);
    TargetEffects(db, op, id, db');
  }

  lemma ReplannedRow(db1: Db, db2: Db, id: TaskId, now: int)
    requires Transition(db1, id, Decomposing, User, now) == Ok(db2)
    ensures id < |db1.tasks| == |db2.tasks| && Forward(db1.tasks[id], db2.tasks[id])
    ensures db2.tasks[id].policy == db1.tasks[id].policy && db2.tasks[id].claimedBy.None?
  {
  }

  lemma ReplanEffects(db: Db, id: TaskId, actor: ActorClass, now: int)
    requires Replan(db, id, actor, now).Ok?
    ensures Effects(db, ReplanOp(id, actor), Replan(db, id, actor, now).value)
  {
    hide SupersedeEach, Subtree, Effects, Quiet, QuietBut, Transition;
    var db1 := SupersedeEach(db, id, Subtree(db, id), now).value;
    SupersedeEachIsQuiet(db, id, Subtree(db, id), now);
    var db2 := Transition(db1, id, Decomposing, User, now).value;
    TransitionIsQuiet(db1, id, Decomposing, User, now);
    var db' := Replan(db, id, actor, now).value;
    CounterIsQuiet(db2, id, 0);
    QuietButThen(db1, db2, db', id);
    QuietIsQuietBut(db, db1, id);
    QuietButThen(db, db1, db', id);
    ReplannedRow(db1, db2, id, now);
    TargetEffects(db, ReplanOp(id, actor), id, db');
  }

  lemma DecomposeEffects(db: Db, op: Op, now: int)
    requires op.DecomposeOp? && Rooted(db) && Apply(db, op, now).Ok?
    ensures Effects(db, op, Apply(db, op, now).value)
  {
    hide Effects, AppendOnly, Quiet, QuietBut, Transition, AddKids, Decompose, MaxOrdinal, Kids, DepsInBatch;
    var id := op.task;
    var db1, state := DecomposeUnfolds(db, id, op.expected, op.key, op.tokens, op.deps, op.checked, now);
    AttemptIsQuiet(db, Attempt(id, Planning, op.key, None, Split, op.tokens));
    var maxOrd := MaxOrdinal(db, Kids(db, id));
    AddKidsIsQuiet(db1, id, state, maxOrd, |db.tasks|, op.deps, 0, now);
    var db2 := AddKids(db1, id, state, maxOrd, |db.tasks|, op.deps, 0, now).value;
    TransitionIsQuiet(db2, id, Decomposed, Planner, now);
    QuietThen(db, db1, db2);
    QuietThen(db, db2, Apply(db, op, now).value);
    QuietEffects(db, op, Apply(db, op, now).value);
  }

  /** What a committed leaf marking has checked and written: the attempt, the transition, and the kind. */
  lemma MarkLeafUnfolds(db: Db, id: TaskId, expected: nat, key: IdemKey, tokens: nat, checked: bool, now: int)
    returns (db1: Db, to: TaskState)
    requires MarkLeaf(db, id, expected, key, tokens, checked, now).Ok?
    ensures id < |db.tasks| && db.tasks[id].state.Decomposing? && (to.AwaitingApproval? || to.Ready?)
    ensures db1 == db.(attempts := db.attempts + [Attempt(id, Planning, key, None, Execute, tokens)])
    ensures Transition(db1, id, to, Planner, now).Ok?
    ensures var db2 := Transition(db1, id, to, Planner, now).value;
      MarkLeaf(db, id, expected, key, tokens, checked, now) == Ok(Put(db2, id, db2.tasks[id].(kind := Leaf)))
  {
    hide Kids, IdemExists, Put;
    db1 := db.(attempts := db.attempts + [Attempt(id, Planning, key, None, Execute, tokens)]);
    var policy := PolicyOf(db, db.tasks[id].campaign).value;
    to := if policy.Gated(db.tasks[id].Depth()) then AwaitingApproval else Ready;
  }

  /** A change of kind alone. */
  lemma KindIsQuiet(db: Db, id: TaskId, kind: TaskKind)
    requires id < |db.tasks|
    ensures Quiet(db, Put(db, id, db.tasks[id].(kind := kind)))
  {
  }

  lemma MarkLeafEffects(db: Db, op: Op, now: int)
    requires op.MarkLeafOp? && Rooted(db) && Apply(db, op, now).Ok?
    ensures Effects(db, op, Apply(db, op, now).value)
  {
    hide Effects, Quiet, Transition, MarkLeaf, Put;
    var id := op.task;
    var db1, to := MarkLeafUnfolds(db, id, op.expected, op.key, op.tokens, op.checked, now);
    var db2 := Transition(db1, id, to, Planner, now).value;
    var db' := Apply(db, op, now).value;
    AttemptIsQuiet(db, Attempt(id, Planning, op.key, None, Execute, op.tokens));
    TransitionIsQuiet(db1, id, to, Planner, now);
    KindIsQuiet(db2, id, Leaf);
    QuietThen(db, db1, db2);
    QuietThen(db, db2, db');
    QuietEffects(db, op, db');
  }

  lemma AftermathIsQuiet(db: Db, leaf: TaskId, parent: Option<TaskId>, now: int)
    requires Rooted(db) && (parent.Some? ==> parent.value < |db.tasks|)
    requires BlockDependents(db, leaf, parent, now).Ok?
    requires RollupFrom(BlockDependents(db, leaf, parent, now).value, parent, now).Ok?
    ensures Quiet(db, RollupFrom(BlockDependents(db, leaf, parent, now).value, parent, now).value)
  {
    var db1 := BlockDependents(db, leaf, parent, now).value;
    if parent.Some? {
      BlockEachIsQuiet(db, leaf, Kids(db, parent.value), now);
    }
    RollupIsQuiet(db1, parent, now);
    QuietThen(db, db1, RollupFrom(db1, parent, now).value);
  }

  lemma FailIsQuiet(db: Db, id: TaskId, owner: Owner, timedOut: bool, checked: bool, now: int)
    requires Rooted(db) && Fail(db, id, owner, timedOut, checked, now).Ok?
    ensures Quiet(db, Fail(db, id, owner, timedOut, checked, now).value)
  {
    var outcome := if timedOut then TimedOut else Erred;
    ReleasingIsQuiet(db, id, Failed, Worker, now, Some(owner), outcome);
    var db2 := CloseWork(Transition(db, id, Failed, Worker, now).value, id, Some(owner), outcome);
    AftermathIsQuiet(db2, id, db.tasks[id].parent, now);
    QuietThen(db, db2, Fail(db, id, owner, timedOut, checked, now).value);
  }

  lemma ResolveReviewIsQuiet(db: Db, id: TaskId, merged: bool, now: int)
    requires Rooted(db) && ResolveReview(db, id, merged, now).Ok?
    ensures Quiet(db, ResolveReview(db, id, merged, now).value)
  {
    var to := if merged then Done else Failed;
    TransitionIsQuiet(db, id, to, Poller, now);
    var db1 := Transition(db, id, to, Poller, now).value;
    if merged {
      RollupIsQuiet(db1, db.tasks[id].parent, now);
    } else {
      AftermathIsQuiet(db1, id, db.tasks[id].parent, now);
    }
    QuietThen(db, db1, ResolveReview(db, id, merged, now).value);
  }

  lemma FailEffects(db: Db, op: Op, now: int)
    requires (op.FailOp? || op.ResolveReviewOp?) && Rooted(db) && Apply(db, op, now).Ok?
    ensures Effects(db, op, Apply(db, op, now).value)
  {
    if op.FailOp? {
      FailIsQuiet(db, op.task, op.owner, op.timedOut, op.checked, now);
    } else {
      ResolveReviewIsQuiet(db, op.task, op.merged, now);
    }
    QuietEffects(db, op, Apply(db, op, now).value);
  }

  lemma ClaimEffects(db: Db, op: Op, now: int)
    requires op.ClaimOp? && Rooted(db) && Apply(db, op, now).Ok?
    ensures Effects(db, op, Apply(db, op, now).value)
  {
    hide ClaimEach, Candidates, Claimable;
    if op.limit > 0 {
      var ids := Candidates(db, op.limit, op.busy);
      CandidatesAreClaimable(db, op.limit, op.busy);
      ClaimEachGives(db, ids, 0, op.owner, ClampLease(op.leaseSecs), now);
    }
  }

  lemma SweepEffects(db: Db, op: Op, now: int)
    requires op.ReapOp? || op.ReapDecomposingOp? || op.ApproveChildrenOp?
    requires Rooted(db) && Apply(db, op, now).Ok?
    ensures Effects(db, op, Apply(db, op, now).value)
  {
    hide Effects, Quiet, ReapEach, ReleaseEach, ApproveEach, Select, Kids;
    if op.ReapOp? {
      ReapEachIsQuiet(db, Select((i: TaskId) => Expired(db, i, now) && i !in op.busy, |db.tasks|), now);
    } else if op.ReapDecomposingOp? {
      var bound := ClampLease(op.maxAgeSecs);
      ReleaseEachIsQuiet(db, Select((i: TaskId) => PlanStale(db, i, bound, now) && i !in op.busy, |db.tasks|), now);
    } else {
      ApproveEachIsQuiet(db, Kids(db, op.task), now);
    }
    QuietEffects(db, op, Apply(db, op, now).value);
  }

  lemma RetryEffects(db: Db, op: Op, now: int)
    requires op.RetryOp? && Rooted(db) && Apply(db, op, now).Ok?
    ensures Effects(db, op, Apply(db, op, now).value)
  {
    hide Effects, Quiet, QuietBut, Transition, RollupFrom;
    TransitionIsQuiet(db, op.task, Ready, User, now);
    var db1 := Transition(db, op.task, Ready, User, now).value;
    RollupIsQuiet(db1, db.tasks[op.task].parent, now);
    QuietThen(db, db1, Apply(db, op, now).value);
    QuietEffects(db, op, Apply(db, op, now).value);
  }

  lemma CancelEffects(db: Db, op: Op, now: int)
    requires op.CancelOp? && Rooted(db) && Apply(db, op, now).Ok?
    ensures Effects(db, op, Apply(db, op, now).value)
  {
    hide Effects, Quiet, CancelEach, Subtree, RollupFrom;
    var db1 := CancelEach(db, Subtree(db, op.task), now).value;
    CancelEachIsQuiet(db, Subtree(db, op.task), now);
    RollupIsQuiet(db1, db.tasks[op.task].parent, now);
    QuietThen(db, db1, Apply(db, op, now).value);
    QuietEffects(db, op, Apply(db, op, now).value);
  }

  lemma CreateEffects(db: Db, op: Op, now: int)
    requires op.CreateOp? && Rooted(db) && Apply(db, op, now).Ok?
    ensures Effects(db, op, Apply(db, op, now).value)
  {
    hide Effects;
    QuietEffects(db, op, Apply(db, op, now).value);
  }

  lemma HeartbeatEffects(db: Db, op: Op, now: int)
    requires op.HeartbeatOp? && Rooted(db) && Apply(db, op, now).Ok?
    ensures Effects(db, op, Apply(db, op, now).value)
  {
    hide Effects;
    QuietEffects(db, op, Apply(db, op, now).value);
  }

  /** An observation, an approval or an answer: an event alone, or one transition. */
  lemma HumanEffects(db: Db, op: Op, now: int)
    requires op.ReviewNoteOp? || op.ApproveOp? || op.AnswerOp?
    requires Rooted(db) && Apply(db, op, now).Ok?
    ensures Effects(db, op, Apply(db, op, now).value)
  {
    hide Effects, Quiet, QuietBut, Transition, Write, HasAwaitingMark;
    var id := op.task;
    var t := db.tasks[id];
    NothingIsQuiet(db);
    if op.ReviewNoteOp? {
      WriteIsQuiet(db, id, t, InReview, Poller, if op.awaiting then AwaitingPrApproval else PollError);
    } else if op.ApproveOp? && t.state.InReview? {
      WriteIsQuiet(db, id, t, InReview, User, PrApproved);
    } else {
      TransitionIsQuiet(db, id, Ready, User, now);
    }
    QuietEffects(db, op, Apply(db, op, now).value);
  }

  lemma UpdatePolicyEffects(db: Db, op: Op, now: int)
    requires op.UpdatePolicyOp? && Rooted(db) && Apply(db, op, now).Ok?
    ensures Effects(db, op, Apply(db, op, now).value)
  {
    hide Effects;
    TargetEffects(db, op, op.task, Apply(db, op, now).value);
  }

  lemma WorkerEffects(db: Db, op: Op, now: int)
    requires op.StartOp? || op.CompleteOp?
    requires Rooted(db) && Apply(db, op, now).Ok?
    ensures Effects(db, op, Apply(db, op, now).value)
  {
    hide Effects, Quiet, QuietBut, Transition, CloseWork;
    if op.StartOp? {
      TransitionIsQuiet(db, op.task, Running, Worker, now);
    } else {
      ReleasingIsQuiet(db, op.task, InReview, Worker, now, Some(op.owner), Pr);
    }
    QuietEffects(db, op, Apply(db, op, now).value);
  }

  /** Every protocol that commits has the stated effect on every row and on both logs. */
  lemma ApplyEffects(db: Db, op: Op, now: int)
    requires Rooted(db) && Apply(db, op, now).Ok?
    ensures Effects(db, op, Apply(db, op, now).value)
  {
    hide Effects, Rooted, Create, PlanStart, Decompose, MarkLeaf, PlanClose, Claim, Heartbeat, Reap, ReapDecomposing, Start, Complete,
      Fail, ResolveReview, ReviewNote, Approve, ApproveChildren, Answer, Retry, UpdatePolicy, Cancel, Replan;
    match op
    case PlanStartOp(task) => PlanStartEffects(db, task, now);
    case PlanCloseOp(_, _, _, _, _, _) => PlanCloseEffects(db, op, now);
    case ReplanOp(task, actor) => ReplanEffects(db, task, actor, now);
    case DecomposeOp(_, _, _, _, _, _) => DecomposeEffects(db, op, now);
    case MarkLeafOp(_, _, _, _, _) => MarkLeafEffects(db, op, now);
    case FailOp(_, _, _, _) => FailEffects(db, op, now);
    case ResolveReviewOp(_, _) => FailEffects(db, op, now);
    case ClaimOp(_, _, _, _) => ClaimEffects(db, op, now);
    case ReapOp(_) => SweepEffects(db, op, now);
    case ReapDecomposingOp(_, _) => SweepEffects(db, op, now);
    case ApproveChildrenOp(_, _) => SweepEffects(db, op, now);
    case RetryOp(_, _) => RetryEffects(db, op, now);
    case CancelOp(_, _) => CancelEffects(db, op, now);
    case StartOp(_, _) => WorkerEffects(db, op, now);
    case CompleteOp(_, _, _) => WorkerEffects(db, op, now);
    case UpdatePolicyOp(_, _, _) => UpdatePolicyEffects(db, op, now);
    case CreateOp(_, _, _, _) => CreateEffects(db, op, now);
    case HeartbeatOp(_, _, _) => HeartbeatEffects(db, op, now);
    case _ => HumanEffects(db, op, now);
  }
}
