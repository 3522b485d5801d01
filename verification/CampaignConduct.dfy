/**
 * What the log says about conduct: in every run, each logged move is one that the transition table allows its
 * actor, so that who approved, merged, failed or cancelled a row can be read off its history.
 */
module CampaignConduct {
  import opened Outcomes
  import opened CampaignRules
  import opened CampaignTables
  import opened CampaignProtocols
  import opened CampaignInvariants
  import opened CampaignSafety
  import opened CampaignEffects
  import opened CampaignRuns

  /** A creation, a note, or a move that the table allows the actor on some kind of row. */
  ghost predicate Lawful(e: Event) {
    e.from.None? || e.from == Some(e.to) || exists kind :: Allowed(e.from.value, e.to, kind, e.actor)
  }

  ghost predicate AllLawful(events: seq<Event>) {
    forall k | 0 <= k < |events| :: Lawful(events[k])
  }

  lemma OneMoreLawful(events: seq<Event>, e: Event)
    requires AllLawful(events) && Lawful(e)
    ensures AllLawful(events + [e])
  {
  }

  // ---- the statements ----

  lemma TransitionIsLawful(db: Db, id: TaskId, to: TaskState, actor: ActorClass, now: int)
    requires AllLawful(db.events) && Transition(db, id, to, actor, now).Ok?
    ensures AllLawful(Transition(db, id, to, actor, now).value.events)
    ensures id < |db.tasks| == |Transition(db, id, to, actor, now).value.tasks|
  {
    hide Allowed, AllLawful;
    OneMoreLawful(db.events, Event(id, Some(db.tasks[id].state), to, actor, db.tasks[id].version + 1, Plain));
  }

  lemma {:induction false} RollupIsLawful(db: Db, parent: Option<TaskId>, now: int)
    requires Rooted(db) && (parent.Some? ==> parent.value < |db.tasks|)
    requires AllLawful(db.events) && RollupFrom(db, parent, now).Ok?
    ensures AllLawful(RollupFrom(db, parent, now).value.events)
    decreases if parent.Some? then parent.value + 1 else 0
  {
    hide AllLawful, Allowed, Rollup, KidStates;
    if parent.Some? {
      var next := Rollup(db.tasks[parent.value].state, KidStates(db, parent.value));
      if next.Some? {
        TransitionIsLawful(db, parent.value, next.value, RollupPass, now);
        RollupIsLawful(Transition(db, parent.value, next.value, RollupPass, now).value, db.tasks[parent.value].parent, now);
      }
    }
  }

  lemma {:induction false} BlockEachIsLawful(db: Db, leaf: TaskId, sibs: seq<TaskId>, now: int)
    requires AllLawful(db.events) && BlockEach(db, leaf, sibs, now).Ok?
    ensures AllLawful(BlockEach(db, leaf, sibs, now).value.events)
    decreases |sibs|
  {
    hide AllLawful, Transition;
    if |sibs| > 0 {
      if db.tasks[sibs[0]].state.Ready? && leaf in db.tasks[sibs[0]].dependsOn {
        TransitionIsLawful(db, sibs[0], Blocked, RollupPass, now);
        BlockEachIsLawful(Transition(db, sibs[0], Blocked, RollupPass, now).value, leaf, sibs[1..], now);
      } else {
        BlockEachIsLawful(db, leaf, sibs[1..], now);
      }
    }
  }

  lemma {:induction false} ApproveEachIsLawful(db: Db, ids: seq<TaskId>, now: int)
    requires AllLawful(db.events) && ApproveEach(db, ids, now).Ok?
    ensures AllLawful(ApproveEach(db, ids, now).value.events)
    decreases |ids|
  {
    hide AllLawful, Transition;
    if |ids| > 0 {
      if db.tasks[ids[0]].state.AwaitingApproval? {
        TransitionIsLawful(db, ids[0], Ready, User, now);
        ApproveEachIsLawful(Transition(db, ids[0], Ready, User, now).value, ids[1..], now);
      } else {
        ApproveEachIsLawful(db, ids[1..], now);
      }
    }
  }

  lemma {:induction false} CancelEachIsLawful(db: Db, ids: seq<TaskId>, now: int)
    requires AllLawful(db.events) && CancelEach(db, ids, now).Ok?
    ensures AllLawful(CancelEach(db, ids, now).value.events)
    decreases |ids|
  {
    hide AllLawful, Transition;
    if |ids| > 0 {
      if db.tasks[ids[0]].state.IsTerminal() {
        CancelEachIsLawful(db, ids[1..], now);
      } else {
        TransitionIsLawful(db, ids[0], Cancelled, User, now);
        CancelEachIsLawful(CloseWork(Transition(db, ids[0], Cancelled, User, now).value, ids[0], None, LostLease), ids[1..], now);
      }
    }
  }

  lemma {:induction false} SupersedeEachIsLawful(db: Db, root: TaskId, ids: seq<TaskId>, now: int)
    requires AllLawful(db.events) && SupersedeEach(db, root, ids, now).Ok?
    ensures AllLawful(SupersedeEach(db, root, ids, now).value.events)
    decreases |ids|
  {
    hide AllLawful, Transition;
    if |ids| > 0 {
      if ids[0] == root || db.tasks[ids[0]].state.IsTerminal() {
        SupersedeEachIsLawful(db, root, ids[1..], now);
      } else {
        var db1 := Transition(db, ids[0], Superseded, User, now).value;
        TransitionIsLawful(db, ids[0], Superseded, User, now);
        SupersedeEachIsLawful(CloseWork(Put(db1, ids[0], db1.tasks[ids[0]].(supersededBy := Some(root))), ids[0], None, LostLease),
                              root, ids[1..], now);
      }
    }
  }

  lemma {:induction false} ReapEachIsLawful(db: Db, ids: seq<TaskId>, now: int)
    requires AllLawful(db.events) && ReapEach(db, ids, now).Ok?
    ensures AllLawful(ReapEach(db, ids, now).value.events)
    decreases |ids|
  {
    hide AllLawful, Allowed;
    if |ids| > 0 {
      var t := db.tasks[ids[0]];
      OneMoreLawful(db.events, Event(ids[0], Some(t.state), Ready, Reaper, t.version + 1, Plain));
      ReapEachIsLawful(ReapOne(db, ids[0], now).value, ids[1..], now);
    }
  }

  lemma ReleaseIsLawful(id: TaskId, version: nat)
    ensures Lawful(Event(id, Some(Decomposing), Ready, Reaper, version, Plain))
    ensures Lawful(Event(id, Some(Ready), Claimed, Driver, version, Plain))
  {
    assert Allowed(Decomposing, Ready, Interior, Reaper);
    assert Allowed(Ready, Claimed, Leaf, Driver);
  }

  lemma {:induction false} ReleaseEachIsLawful(db: Db, ids: seq<TaskId>, now: int)
    requires AllLawful(db.events) && ReleaseEach(db, ids, now).Ok?
    ensures AllLawful(ReleaseEach(db, ids, now).value.events)
    decreases |ids|
  {
    hide AllLawful, Lawful;
    if |ids| > 0 {
      var t := db.tasks[ids[0]];
      ReleaseIsLawful(ids[0], t.version + 1);
      OneMoreLawful(db.events, Event(ids[0], Some(Decomposing), Ready, Reaper, t.version + 1, Plain));
      ReleaseEachIsLawful(Write(db, ids[0], t.(state := Ready, version := t.version + 1, updatedAt := now), Decomposing, Reaper, Plain),
                          ids[1..], now);
    }
  }

  lemma {:induction false} ClaimEachIsLawful(db: Db, ids: seq<TaskId>, position: nat, owner: Owner, lease: int, now: int)
    requires AllLawful(db.events) && ClaimEach(db, ids, position, owner, lease, now).Ok?
    ensures AllLawful(ClaimEach(db, ids, position, owner, lease, now).value.events)
    decreases |ids|
  {
    hide AllLawful, Lawful, IdemExists;
    if |ids| > 0 {
      var t := db.tasks[ids[0]];
      ReleaseIsLawful(ids[0], t.version + 1);
      OneMoreLawful(db.events, Event(ids[0], Some(Ready), Claimed, Driver, t.version + 1, Plain));
      ClaimEachIsLawful(ClaimOne(db, ids[0], position, owner, lease, now).value, ids[1..], position + 1, owner, lease, now);
    }
  }

  lemma {:induction false} AddKidsIsLawful(db: Db, id: TaskId, state: TaskState, maxOrd: nat, base: TaskId, deps: seq<seq<nat>>, i: nat, now: int)
    requires i <= |deps| && id < |db.tasks| && AddKids(db, id, state, maxOrd, base, deps, i, now).Ok?
    requires AllLawful(db.events)
    ensures AllLawful(AddKids(db, id, state, maxOrd, base, deps, i, now).value.events)
    decreases |deps| - i
  {
    hide AllLawful, ChildPath;
    if i < |deps| {
      var path := ChildPath(db.tasks[id].path, maxOrd + i + 1).value;
      OneMoreLawful(db.events, Event(|db.tasks|, None, state, Planner, 1, Plain));
      AddKidsIsLawful(InsertTask(db, NewKid(db.tasks[id], id, path, state, base, deps[i], now), Planner),
                      id, state, maxOrd, base, deps, i + 1, now);
    }
  }

  // ---- the protocols ----

  lemma MoveAndPassIsLawful(db: Db, id: TaskId, to: TaskState, actor: ActorClass, now: int)
    requires Rooted(db) && AllLawful(db.events) && id < |db.tasks| && Transition(db, id, to, actor, now).Ok?
    requires var db1 := Transition(db, id, to, actor, now).value; var up := db.tasks[id].parent;
      && Rooted(db1) && (up.Some? ==> up.value < |db1.tasks|) && RollupFrom(db1, up, now).Ok?
    ensures AllLawful(RollupFrom(Transition(db, id, to, actor, now).value, db.tasks[id].parent, now).value.events)
  {
    hide AllLawful, Transition, RollupFrom;
    TransitionIsLawful(db, id, to, actor, now);
    RollupIsLawful(Transition(db, id, to, actor, now).value, db.tasks[id].parent, now);
  }

  lemma PlansAreLawful(db: Db, op: Op, now: int)
    requires Rooted(db) && AllLawful(db.events) && Apply(db, op, now).Ok? && (op.PlanStartOp? || op.PlanCloseOp?)
    ensures AllLawful(Apply(db, op, now).value.events)
  {
    hide AllLawful, Transition, RollupFrom, PlanTokens, PlanClose;
    var id := op.task;
    if op.PlanStartOp? {
      var policy := PolicyOf(db, db.tasks[id].campaign).value;
      if db.tasks[id].attempts >= policy.maxPlanAttempts || PlanTokens(db, db.tasks[id].campaign, |db.attempts|) >= policy.maxPlanTokens {
        TransitionIsLawful(db, id, Blocked, Planner, now);
        MoveAndPassIsLawful(db, id, Blocked, Planner, now);
      } else {
        TransitionIsLawful(db, id, Decomposing, Planner, now);
      }
    } else {
      var db1 := PlanCloseUnfolds(db, id, op.expected, op.key, op.tokens, op.result, op.checked, now);
      var t := db.tasks[id];
      var db2 := if op.result.Errs? then SetAttempts(db1, id, t.attempts + 1) else db1;
      if op.result.AsksForInfo? {
        TransitionIsLawful(db1, id, AwaitingApproval, Planner, now);
      } else if op.result.Errs? && t.attempts + 1 < PolicyOf(db1, t.campaign).value.maxPlanAttempts {
        TransitionIsLawful(db2, id, Ready, Planner, now);
      } else {
        TransitionIsLawful(db2, id, Blocked, Planner, now);
        MoveAndPassIsLawful(db2, id, Blocked, Planner, now);
      }
    }
  }

  lemma SplitsAreLawful(db: Db, op: Op, now: int)
    requires Rooted(db) && AllLawful(db.events) && Apply(db, op, now).Ok? && (op.DecomposeOp? || op.MarkLeafOp?)
    ensures AllLawful(Apply(db, op, now).value.events)
  {
    hide AllLawful, Transition, Decompose, MarkLeaf, AddKids, Kids, MaxOrdinal, DepsInBatch;
    var id := op.task;
    if op.DecomposeOp? {
      var db1, state := DecomposeUnfolds(db, id, op.expected, op.key, op.tokens, op.deps, op.checked, now);
      var maxOrd := MaxOrdinal(db, Kids(db, id));
      AddKidsIsLawful(db1, id, state, maxOrd, |db.tasks|, op.deps, 0, now);
      TransitionIsLawful(AddKids(db1, id, state, maxOrd, |db.tasks|, op.deps, 0, now).value, id, Decomposed, Planner, now);
    } else {
      var db1, to := MarkLeafUnfolds(db, id, op.expected, op.key, op.tokens, op.checked, now);
      TransitionIsLawful(db1, id, to, Planner, now);
    }
  }

  /** The leaf has failed: its dependents are blocked and the pass follows. */
  lemma AftermathIsLawful(db: Db, leaf: TaskId, parent: Option<TaskId>, now: int)
    requires Rooted(db) && (parent.Some? ==> parent.value < |db.tasks|) && AllLawful(db.events)
    requires BlockDependents(db, leaf, parent, now).Ok?
    requires RollupFrom(BlockDependents(db, leaf, parent, now).value, parent, now).Ok?
    ensures AllLawful(RollupFrom(BlockDependents(db, leaf, parent, now).value, parent, now).value.events)
  {
    hide AllLawful, BlockEach, RollupFrom, Kids;
    if parent.Some? {
      BlockEachIsLawful(db, leaf, Kids(db, parent.value), now);
    }
    RollupIsLawful(BlockDependents(db, leaf, parent, now).value, parent, now);
  }

  lemma FailureIsLawful(db: Db, op: Op, now: int)
    requires Rooted(db) && AllLawful(db.events) && Apply(db, op, now).Ok? && (op.FailOp? || op.ResolveReviewOp?)
    ensures AllLawful(Apply(db, op, now).value.events)
  {
    hide AllLawful, Transition, BlockDependents, RollupFrom;
    var id := op.task;
    var up := db.tasks[id].parent;
    if op.FailOp? {
      TransitionIsLawful(db, id, Failed, Worker, now);
      var db2 := CloseWork(Transition(db, id, Failed, Worker, now).value, id, Some(op.owner), if op.timedOut then TimedOut else Erred);
      AftermathIsLawful(db2, id, up, now);
    } else if op.merged {
      TransitionIsLawful(db, id, Done, Poller, now);
      MoveAndPassIsLawful(db, id, Done, Poller, now);
    } else {
      TransitionIsLawful(db, id, Failed, Poller, now);
      AftermathIsLawful(Transition(db, id, Failed, Poller, now).value, id, up, now);
    }
  }

  lemma SweepsAreLawful(db: Db, op: Op, now: int)
    requires Rooted(db) && AllLawful(db.events) && Apply(db, op, now).Ok?
    requires op.ClaimOp? || op.ReapOp? || op.ReapDecomposingOp? || op.ApproveChildrenOp?
    ensures AllLawful(Apply(db, op, now).value.events)
  {
    hide AllLawful, ReapEach, ReleaseEach, ApproveEach, ClaimEach, Candidates, Select, Kids;
    if op.ReapOp? {
      ReapEachIsLawful(db, Select((i: TaskId) => Expired(db, i, now) && i !in op.busy, |db.tasks|), now);
    } else if op.ReapDecomposingOp? {
      var bound := ClampLease(op.maxAgeSecs);
      ReleaseEachIsLawful(db, Select((i: TaskId) => PlanStale(db, i, bound, now) && i !in op.busy, |db.tasks|), now);
    } else if op.ApproveChildrenOp? {
      ApproveEachIsLawful(db, Kids(db, op.task), now);
    } else if op.limit > 0 {
      ClaimEachIsLawful(db, Candidates(db, op.limit, op.busy), 0, op.owner, ClampLease(op.leaseSecs), now);
    }
  }

  lemma SubtreeIsLawful(db: Db, op: Op, now: int)
    requires Rooted(db) && AllLawful(db.events) && Apply(db, op, now).Ok? && (op.CancelOp? || op.ReplanOp?)
    ensures AllLawful(Apply(db, op, now).value.events)
  {
    hide AllLawful, CancelEach, SupersedeEach, Subtree, Transition, RollupFrom;
    var id := op.task;
    if op.CancelOp? {
      CancelEachIsLawful(db, Subtree(db, id), now);
      RollupIsLawful(CancelEach(db, Subtree(db, id), now).value, db.tasks[id].parent, now);
    } else {
      SupersedeEachIsLawful(db, id, Subtree(db, id), now);
      TransitionIsLawful(SupersedeEach(db, id, Subtree(db, id), now).value, id, Decomposing, User, now);
    }
  }

  lemma WorkerIsLawful(db: Db, op: Op, now: int)
    requires Rooted(db) && AllLawful(db.events) && Apply(db, op, now).Ok?
    requires op.StartOp? || op.CompleteOp? || op.RetryOp? || op.AnswerOp?
    ensures AllLawful(Apply(db, op, now).value.events)
  {
    hide AllLawful, Transition, RollupFrom, CloseAttempts;
    match op
    case StartOp(id, _) => TransitionIsLawful(db, id, Running, Worker, now);
    case CompleteOp(id, _, _) => TransitionIsLawful(db, id, InReview, Worker, now);
    case RetryOp(id, _) => TransitionIsLawful(db, id, Ready, User, now); MoveAndPassIsLawful(db, id, Ready, User, now);
    case AnswerOp(id, _, _, _) => TransitionIsLawful(db, id, Ready, User, now);
  }

  lemma NotesAreLawful(db: Db, op: Op, now: int)
    requires Rooted(db) && AllLawful(db.events) && Apply(db, op, now).Ok?
    requires op.CreateOp? || op.HeartbeatOp? || op.ReviewNoteOp? || op.ApproveOp? || op.UpdatePolicyOp?
    ensures AllLawful(Apply(db, op, now).value.events)
  {
    hide AllLawful, Transition, HasAwaitingMark;
    match op
    case CreateOp(_, draft, _, _) => OneMoreLawful(db.events, Event(|db.tasks|, None, if draft then Draft else Ready, User, 1, Plain));
    case HeartbeatOp(_, _, _) =>
    case ReviewNoteOp(id, awaiting) =>
      OneMoreLawful(db.events, Event(id, Some(InReview), InReview, Poller, db.tasks[id].version,
                                     if awaiting then AwaitingPrApproval else PollError));
    case ApproveOp(id, _, _) =>
      if db.tasks[id].state.InReview? {
        OneMoreLawful(db.events, Event(id, Some(InReview), InReview, User, db.tasks[id].version, PrApproved));
      } else {
        TransitionIsLawful(db, id, Ready, User, now);
      }
    case UpdatePolicyOp(id, _, _) =>
      var t := db.tasks[id];
      OneMoreLawful(db.events, Event(id, Some(t.state), t.state, User, t.version + 1, PolicyUpdated));
  }

  /** Every committed protocol keeps the log lawful. */
  lemma ApplyIsLawful(db: Db, op: Op, now: int)
    requires Rooted(db) && AllLawful(db.events) && Apply(db, op, now).Ok?
    ensures AllLawful(Apply(db, op, now).value.events)
  {
    hide AllLawful, Apply;
    if op.PlanStartOp? || op.PlanCloseOp? {
      PlansAreLawful(db, op, now);
    } else if op.DecomposeOp? || op.MarkLeafOp? {
      SplitsAreLawful(db, op, now);
    } else if op.FailOp? || op.ResolveReviewOp? {
      FailureIsLawful(db, op, now);
    } else if op.ClaimOp? || op.ReapOp? || op.ReapDecomposingOp? || op.ApproveChildrenOp? {
      SweepsAreLawful(db, op, now);
    } else if op.CancelOp? || op.ReplanOp? {
      SubtreeIsLawful(db, op, now);
    } else if op.StartOp? || op.CompleteOp? || op.RetryOp? || op.AnswerOp? {
      WorkerIsLawful(db, op, now);
    } else {
      NotesAreLawful(db, op, now);
    }
  }

  // ---- whole runs ----

  lemma {:induction false} RunIsLawful(db: Db, steps: seq<Step>)
    requires Inv(db) && AllLawful(db.events)
    ensures AllLawful(Run(db, steps).events)
    decreases |steps|
  {
    hide Inv, AllLawful, Apply;
    if |steps| > 0 {
      SoundTree(db);
      if Committed(db, steps[0]) {
        ApplyIsLawful(db, steps[0].op, steps[0].now);
      }
      RunIsLawful(After(db, steps[0]), steps[1..]);
    }
  }

  /**
   * In every reachable store, what moved a row is told by its log: done only by a poller that settled a review or
   * by the rollup, out of approval only by a user, claimed only by a driver, failed only by the worker or the
   * poller, superseded only by a user; and nothing ever moved out of a terminal state.
   */
  lemma LogTellsWho(db: Db, k: nat)
    requires Reachable(db) && k < |db.events| && db.events[k].from.Some? && db.events[k].from != Some(db.events[k].to)
    ensures var e := db.events[k]; var was := e.from.value;
      && !was.Done? && !was.Cancelled? && !was.Superseded?
      && (e.to.Done? ==> (was.InReview? && e.actor.Poller?) || ((was.Decomposed? || was.Blocked?) && e.actor.RollupPass?))
      && (was.AwaitingApproval? ==> e.actor.User?)
      && (e.to.Claimed? ==> was.Ready? && e.actor.Driver?)
      && (e.to.Failed? ==> (was.Running? && e.actor.Worker?) || (was.InReview? && e.actor.Poller?))
      && (e.to.Superseded? || e.to.Cancelled? ==> e.actor.User?)
      && !e.actor.Model?
  {
    hide Inv, Run;
    EmptyIsFine();
    var steps :| Run(EMPTY, steps) == db;
    RunIsLawful(EMPTY, steps);
    assert Lawful(db.events[k]);
  }
}
