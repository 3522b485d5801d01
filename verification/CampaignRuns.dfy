/**
 * What holds over whole runs of the campaign store: empty tables, and one committed protocol after another.
 * The event log replays to the rows, the ledger of leases is exact, an owner that lost its leaf is fenced
 * off, dependents of a failed leaf are blocked, planning is finite, and the tree is numbered without gaps.
 */
module CampaignRuns {
  import opened Outcomes
  import opened CampaignRules
  import opened CampaignTables
  import opened CampaignProtocols
  import opened CampaignInvariants
  import opened CampaignSafety
  import opened CampaignEffects

  /** One protocol call, at the clock reading of its transaction. */
  datatype Step = Step(op: Op, now: int)

  const EMPTY := Db([], [], [])

  lemma EmptyIsFine()
    ensures Inv(EMPTY)
  {
    assert forall i: TaskId :: Replay([], i) == Unborn && OpenOwners([], i) == [];
  }

  /** A protocol that fails leaves the tables as they were. */
  ghost function After(db: Db, step: Step): (db': Db)
    requires Inv(db)
    ensures Inv(db')
  {
    match Apply(db, step.op, step.now)
    case Ok(_) => ApplyKeeps(db, step.op, step.now); Apply(db, step.op, step.now).value
    case Err(_) => db
  }

  /** The tables after a run of protocols: every invariant holds at every commit. */
  ghost function Run(db: Db, steps: seq<Step>): (db': Db)
    requires Inv(db)
    ensures Inv(db')
    decreases |steps|
  {
    if |steps| == 0 then db else Run(After(db, steps[0]), steps[1..])
  }

  lemma {:induction false} RunThen(db: Db, steps: seq<Step>, step: Step)
    requires Inv(db)
    ensures Run(db, steps + [step]) == After(Run(db, steps), step)
    decreases |steps|
  {
    if |steps| > 0 {
      assert (steps + [step])[1..] == steps[1..] + [step];
      RunThen(After(db, steps[0]), steps[1..], step);
    } else {
      assert [step][1..] == [];
    }
  }

  /** Some run of the protocols, from the empty store, ends in these tables. */
  ghost predicate Reachable(db: Db) {
    Inv(EMPTY) && exists steps :: Run(EMPTY, steps) == db
  }

  lemma ReachableNext(db: Db, op: Op, now: int)
    requires Reachable(db) && Rooted(db) && Apply(db, op, now).Ok?
    ensures Reachable(Apply(db, op, now).value) && Inv(Apply(db, op, now).value)
  {
    hide Inv, Apply;
    var steps :| Run(EMPTY, steps) == db;
    RunThen(EMPTY, steps, Step(op, now));
    assert Run(EMPTY, steps + [Step(op, now)]) == Apply(db, op, now).value;
  }

  // ---- the event log ----

  /** A task's own events, oldest first. */
  function EventsOf(events: seq<Event>, id: TaskId): seq<Event> {
    if |events| == 0 then []
    else
      EventsOf(events[..|events| - 1], id)
        + (if events[|events| - 1].task == id then [events[|events| - 1]] else [])
  }

  /** An unbroken chain from the creation event to `(state, version)`. */
  ghost predicate Chain(es: seq<Event>, state: TaskState, version: nat) {
    && |es| > 0
    && es[0].from.None? && es[0].version == 1
    && (forall k | 0 < k < |es| ::
          && es[k].from == Some(es[k - 1].to)
          && es[k - 1].version <= es[k].version
          && (es[k - 1].to != es[k].to ==> es[k - 1].version < es[k].version))
    && es[|es| - 1].to == state && es[|es| - 1].version == version
  }

  lemma {:induction false} ReplayReadsChain(events: seq<Event>, id: TaskId)
    ensures Replay(events, id).At? ==> Chain(EventsOf(events, id), Replay(events, id).state, Replay(events, id).version)
    ensures Replay(events, id).Unborn? ==> EventsOf(events, id) == []
  {
    if |events| > 0 {
      hide Chain;
      var front, e := events[..|events| - 1], events[|events| - 1];
      ReplayReadsChain(front, id);
      if e.task == id && Replay(events, id).At? {
        ChainGrows(EventsOf(front, id), Replay(front, id), e);
      }
    }
  }

  lemma ChainGrows(es: seq<Event>, h: History, e: Event)
    requires h.At? ==> Chain(es, h.state, h.version)
    requires h.Unborn? ==> es == []
    requires Extend(h, e).At?
    ensures Chain(es + [e], e.to, e.version)
  {
  }

  /** At every commit of every run, each task's events are one chain that ends at its row. */
  lemma EventsReplayToRows(db: Db, id: TaskId)
    requires Reachable(db) && id < |db.tasks|
    ensures Chain(EventsOf(db.events, id), db.tasks[id].state, db.tasks[id].version)
  {
    ReplayReadsChain(db.events, id);
    assert Replay(db.events, id) == RowHistory(db.tasks, id);
  }

  // ---- the lease ledger ----

  lemma {:induction false} OpenOwnersCount(attempts: seq<Attempt>, id: TaskId)
    ensures OpenOwners(attempts, id) == [] ==> forall a | 0 <= a < |attempts| :: !IsOpen(attempts[a], id)
    ensures |OpenOwners(attempts, id)| == 1 ==>
      forall a, b | 0 <= a < |attempts| && 0 <= b < |attempts| && IsOpen(attempts[a], id) && IsOpen(attempts[b], id) ::
        a == b && attempts[a].owner == OpenOwners(attempts, id)[0]
  {
    if |attempts| > 0 {
      var front := attempts[..|attempts| - 1];
      OpenOwnersCount(front, id);
      assert forall a | 0 <= a < |front| :: front[a] == attempts[a];
    }
  }

  lemma {:induction false} LastWorkIsLast(attempts: seq<Attempt>, id: TaskId)
    ensures forall a | 0 <= a < |attempts| && attempts[a].task == id && attempts[a].kind.Work? ::
      LastWork(attempts, id).Some? && a <= LastWork(attempts, id).value
  {
    if |attempts| > 0 {
      LastWorkIsLast(attempts[..|attempts| - 1], id);
      assert forall a | 0 <= a < |attempts| - 1 :: attempts[..|attempts| - 1][a] == attempts[a];
    }
  }

  /**
   * A claimed or running task is a leaf with exactly one pending `work` attempt: its owner's, and the
   * newest `work` attempt it has. Any other task has none.
   */
  lemma LeaseLedger(db: Db, id: TaskId)
    requires Inv(db) && id < |db.tasks|
    ensures var t := db.tasks[id];
      && (t.state.IsLeased() ==>
            && t.kind.Leaf? && t.claimedBy.Some? && LastWork(db.attempts, id).Some?
            && (forall a | 0 <= a < |db.attempts| :: IsOpen(db.attempts[a], id) <==> a == LastWork(db.attempts, id).value)
            && db.attempts[LastWork(db.attempts, id).value].owner == t.claimedBy)
      && (!t.state.IsLeased() ==> t.claimedBy.None? && forall a | 0 <= a < |db.attempts| :: !IsOpen(db.attempts[a], id))
  {
    assert LeaseOk(db.tasks[id]);
    assert LedgerReads(db.attempts, id, Lessee(db.tasks, id));
    OpenOwnersCount(db.attempts, id);
  }

  // ---- fencing ----

  /** Closing the owner's work changes exactly the attempt of the current claim. */
  lemma CloseIsExact(db: Db, id: TaskId, owner: Owner, outcome: AttemptOutcome)
    requires Inv(db) && id < |db.tasks| && db.tasks[id].claimedBy == Some(owner)
    ensures LastWork(db.attempts, id).Some?
    ensures var k := LastWork(db.attempts, id).value;
      && db.attempts[k].owner == Some(owner) && db.attempts[k].outcome.Pending?
      && CloseAttempts(db.attempts, id, Some(owner), outcome) == db.attempts[k := db.attempts[k].(outcome := outcome)]
  {
    LeaseLedger(db, id);
    assert LeaseOk(db.tasks[id]);
  }

  /**
   * A successful `complete` or `fail` is its owner's, and closes exactly one attempt: the one opened
   * by the leaf's most recent claim, which that owner made.
   */
  lemma FinishClosesOwnClaim(db: Db, op: Op, now: int)
    requires Inv(db) && (op.CompleteOp? || op.FailOp?) && Apply(db, op, now).Ok?
    ensures op.task < |db.tasks| && db.tasks[op.task].claimedBy == Some(op.owner) && db.tasks[op.task].state.Running?
    ensures LastWork(db.attempts, op.task).Some?
    ensures var k := LastWork(db.attempts, op.task).value;
      var outcome := if op.CompleteOp? then Pr else if op.timedOut then TimedOut else Erred;
      && db.attempts[k].owner == Some(op.owner) && db.attempts[k].outcome.Pending?
      && Apply(db, op, now).value.attempts == db.attempts[k := db.attempts[k].(outcome := outcome)]
  {
    hide Inv, Complete, Fail, CloseAttempts, LastWork;
    SoundTree(db);
    if op.CompleteOp? {
      CompleteAttempts(db, op.task, op.owner, op.checked, now);
      CloseIsExact(db, op.task, op.owner, Pr);
    } else {
      FailAttempts(db, op.task, op.owner, op.timedOut, op.checked, now);
      CloseIsExact(db, op.task, op.owner, if op.timedOut then TimedOut else Erred);
    }
  }

  lemma CompleteAttempts(db: Db, id: TaskId, owner: Owner, checked: bool, now: int)
    requires Complete(db, id, owner, checked, now).Ok?
    ensures id < |db.tasks| && db.tasks[id].claimedBy == Some(owner) && db.tasks[id].state.Running?
    ensures Complete(db, id, owner, checked, now).value.attempts == CloseAttempts(db.attempts, id, Some(owner), Pr)
  {
    hide Allowed, CloseAttempts;
  }

  /** Blocking the dependents and the rollup leave the attempts alone. */
  lemma FailAttempts(db: Db, id: TaskId, owner: Owner, timedOut: bool, checked: bool, now: int)
    requires Rooted(db) && Fail(db, id, owner, timedOut, checked, now).Ok?
    ensures id < |db.tasks| && db.tasks[id].claimedBy == Some(owner) && db.tasks[id].state.Running?
    ensures Fail(db, id, owner, timedOut, checked, now).value.attempts
      == CloseAttempts(db.attempts, id, Some(owner), if timedOut then TimedOut else Erred)
  {
    hide Allowed, CloseAttempts, RollupFrom, BlockEach;
    var db2 := CloseWork(Transition(db, id, Failed, Worker, now).value, id, Some(owner), if timedOut then TimedOut else Erred);
    var parent := db.tasks[id].parent;
    if parent.Some? {
      BlockEachAttempts(db2, id, Kids(db2, parent.value), now);
      RollupAttempts(BlockEach(db2, id, Kids(db2, parent.value), now).value, parent, now);
    } else {
      RollupAttempts(db2, parent, now);
    }
  }

  lemma {:induction false} RollupAttempts(db: Db, parent: Option<TaskId>, now: int)
    requires Rooted(db) && (parent.Some? ==> parent.value < |db.tasks|)
    requires RollupFrom(db, parent, now).Ok?
    ensures RollupFrom(db, parent, now).value.attempts == db.attempts
    decreases if parent.Some? then parent.value + 1 else 0
  {
    if parent.Some? {
      var next := Rollup(db.tasks[parent.value].state, KidStates(db, parent.value));
      if next.Some? {
        RollupAttempts(Transition(db, parent.value, next.value, RollupPass, now).value, db.tasks[parent.value].parent, now);
      }
    }
  }

  lemma {:induction false} BlockEachAttempts(db: Db, leaf: TaskId, sibs: seq<TaskId>, now: int)
    requires BlockEach(db, leaf, sibs, now).Ok?
    ensures BlockEach(db, leaf, sibs, now).value.attempts == db.attempts
    decreases |sibs|
  {
    if |sibs| > 0 {
      if db.tasks[sibs[0]].state.Ready? && leaf in db.tasks[sibs[0]].dependsOn {
        BlockEachAttempts(Transition(db, sibs[0], Blocked, RollupPass, now).value, leaf, sibs[1..], now);
      } else {
        BlockEachAttempts(db, leaf, sibs[1..], now);
      }
    }
  }

  /** No step of the run is a claim by `owner` that is given the leaf. */
  ghost predicate NoNewClaim(db: Db, steps: seq<Step>, id: TaskId, owner: Owner)
    requires Inv(db)
    decreases |steps|
  {
    |steps| > 0 ==>
      && !(GivesClaim(db, steps[0].op, id) && steps[0].op.owner == owner)
      && NoNewClaim(After(db, steps[0]), steps[1..], id, owner)
  }

  /**
   * Once `owner` does not hold the leaf, it holds it again only after a new claim: until then every
   * `start`, `complete`, `fail` and `heartbeat` of that owner is refused, at any time.
   */
  lemma {:induction false} FencedUntilNewClaim(db: Db, steps: seq<Step>, id: TaskId, owner: Owner, now: int, flag: bool, checked: bool, leaseSecs: int)
    requires Inv(db) && id < |db.tasks| && db.tasks[id].claimedBy != Some(owner)
    requires NoNewClaim(db, steps, id, owner)
    ensures id < |Run(db, steps).tasks| && Run(db, steps).tasks[id].claimedBy != Some(owner)
    ensures Start(Run(db, steps), id, owner, now) == Err(LeaseLost)
    ensures Complete(Run(db, steps), id, owner, checked, now) == Err(LeaseLost)
    ensures Fail(Run(db, steps), id, owner, flag, checked, now) == Err(LeaseLost)
    ensures Heartbeat(Run(db, steps), id, owner, leaseSecs, now) == Err(LeaseLost)
    decreases |steps|
  {
    if |steps| > 0 {
      var db1 := After(db, steps[0]);
      if Apply(db, steps[0].op, steps[0].now).Ok? {
        ApplyEffects(db, steps[0].op, steps[0].now);
        assert RowEffect(db, steps[0].op, id, db1.tasks[id]);
      }
      FencedUntilNewClaim(db1, steps[1..], id, owner, now, flag, checked, leaseSecs);
    }
  }

  // ---- taking a leaf back ----

  lemma {:induction false} ReapEachTakes(db: Db, ids: seq<TaskId>, now: int)
    requires ReapEach(db, ids, now).Ok?
    ensures |ReapEach(db, ids, now).value.tasks| == |db.tasks|
    ensures forall i: TaskId | i < |db.tasks| && i in ids :: ReapEach(db, ids, now).value.tasks[i].claimedBy.None?
    ensures forall i: TaskId | i < |db.tasks| && i !in ids :: ReapEach(db, ids, now).value.tasks[i] == db.tasks[i]
    decreases |ids|
  {
    if |ids| > 0 {
      var db1 := ReapOne(db, ids[0], now).value;
      ReapEachTakes(db1, ids[1..], now);
      ReapEachIsQuiet(db1, ids[1..], now);
      assert Bystander(db1.tasks[ids[0]], ReapEach(db1, ids[1..], now).value.tasks[ids[0]]);
      assert forall x :: x in ids <==> x == ids[0] || x in ids[1..];
    }
  }

  /** The reaper takes back every expired lease that nobody has locked, and touches no other row. */
  lemma ReapTakesBack(db: Db, busy: set<TaskId>, now: int)
    requires Reap(db, busy, now).Ok?
    ensures |Reap(db, busy, now).value.tasks| == |db.tasks|
    ensures forall i: TaskId | i < |db.tasks| ::
      if Expired(db, i, now) && i !in busy then Reap(db, busy, now).value.tasks[i].claimedBy.None?
      else Reap(db, busy, now).value.tasks[i] == db.tasks[i]
  {
    var keep := (i: TaskId) => Expired(db, i, now) && i !in busy;
    SelectMembers(keep, |db.tasks|);
    ReapEachTakes(db, Select(keep, |db.tasks|), now);
    assert forall i: TaskId | i < |db.tasks| :: i in Select(keep, |db.tasks|) <==> keep(i);
  }

  lemma SubtreeMembers(db: Db, id: TaskId)
    requires id < |db.tasks|
    ensures forall i: TaskId :: i in Subtree(db, id) <==> i < |db.tasks| && InSubtree(db, id, i)
  {
    var keep := (i: TaskId) => i < |db.tasks| && InSubtree(db, id, i);
    SelectMembers(keep, |db.tasks|);
    SortMembers(DepthPathKey(db.tasks), Select(keep, |db.tasks|));
    assert forall i: TaskId :: i in Select(keep, |db.tasks|) <==> i < |db.tasks| && keep(i);
  }

  lemma {:induction false} CancelEachExact(db: Db, ids: seq<TaskId>, now: int)
    requires CancelEach(db, ids, now).Ok?
    ensures var db' := CancelEach(db, ids, now).value;
      && |db'.tasks| == |db.tasks|
      && forall i: TaskId | i < |db.tasks| ::
        db'.tasks[i] == if i in ids && !db.tasks[i].state.IsTerminal() then Moved(db.tasks[i], Cancelled, now) else db.tasks[i]
    decreases |ids|
  {
    if |ids| > 0 {
      assert forall x :: x in ids <==> x == ids[0] || x in ids[1..];
      if db.tasks[ids[0]].state.IsTerminal() {
        CancelEachExact(db, ids[1..], now);
      } else {
        CancelEachExact(CloseWork(Transition(db, ids[0], Cancelled, User, now).value, ids[0], None, LostLease), ids[1..], now);
      }
    }
  }

  /** The pass moves only `decomposed` and `blocked` rows, and never to `ready`. */
  lemma {:induction false} RollupMovesParents(db: Db, parent: Option<TaskId>, now: int)
    requires Rooted(db) && (parent.Some? ==> parent.value < |db.tasks|)
    requires RollupFrom(db, parent, now).Ok?
    ensures |RollupFrom(db, parent, now).value.tasks| == |db.tasks|
    ensures forall i: TaskId | i < |db.tasks| ::
      || RollupFrom(db, parent, now).value.tasks[i] == db.tasks[i]
      || ((db.tasks[i].state.Decomposed? || db.tasks[i].state.Blocked?) && parent.Some? && i <= parent.value
          && !RollupFrom(db, parent, now).value.tasks[i].state.Ready?)
    decreases if parent.Some? then parent.value + 1 else 0
  {
    if parent.Some? {
      var next := Rollup(db.tasks[parent.value].state, KidStates(db, parent.value));
      if next.Some? {
        RollupMovesParents(Transition(db, parent.value, next.value, RollupPass, now).value, db.tasks[parent.value].parent, now);
      }
    }
  }

  /** After `cancel`, every row of the subtree is terminal and unleased; rows that were terminal are untouched. */
  lemma CancelEndsSubtree(db: Db, id: TaskId, actor: ActorClass, now: int)
    requires Rooted(db) && Cancel(db, id, actor, now).Ok?
    ensures var db' := Cancel(db, id, actor, now).value;
      && |db'.tasks| == |db.tasks| && id < |db.tasks|
      && forall i: TaskId | i < |db.tasks| && InSubtree(db, id, i) ::
        db'.tasks[i] == if db.tasks[i].state.IsTerminal() then db.tasks[i] else Moved(db.tasks[i], Cancelled, now)
  {
    hide CancelEach, Subtree, RollupFrom;
    SubtreeMembers(db, id);
    CancelEachExact(db, Subtree(db, id), now);
    RollupMovesParents(CancelEach(db, Subtree(db, id), now).value, db.tasks[id].parent, now);
  }

  lemma {:induction false} SupersedeEachExact(db: Db, root: TaskId, ids: seq<TaskId>, now: int)
    requires SupersedeEach(db, root, ids, now).Ok?
    ensures var db' := SupersedeEach(db, root, ids, now).value;
      && |db'.tasks| == |db.tasks|
      && forall i: TaskId | i < |db.tasks| ::
        db'.tasks[i] == if i in ids && i != root && !db.tasks[i].state.IsTerminal()
                        then Moved(db.tasks[i], Superseded, now).(supersededBy := Some(root)) else db.tasks[i]
    decreases |ids|
  {
    if |ids| > 0 {
      assert forall x :: x in ids <==> x == ids[0] || x in ids[1..];
      if ids[0] == root || db.tasks[ids[0]].state.IsTerminal() {
        SupersedeEachExact(db, root, ids[1..], now);
      } else {
        var db1 := Transition(db, ids[0], Superseded, User, now).value;
        var db2 := Put(db1, ids[0], db1.tasks[ids[0]].(supersededBy := Some(root)));
        SupersedeEachExact(CloseWork(db2, ids[0], None, LostLease), root, ids[1..], now);
      }
    }
  }

  /**
   * `replan` supersedes every live descendant, keeps the finished ones, and hands the node back to the
   * planner with no attempt counted; no other row moves.
   */
  lemma ReplanSupersedes(db: Db, id: TaskId, actor: ActorClass, now: int)
    requires Replan(db, id, actor, now).Ok?
    ensures var db' := Replan(db, id, actor, now).value;
      && |db'.tasks| == |db.tasks| && id < |db.tasks|
      && db'.tasks[id] == Moved(db.tasks[id], Decomposing, now).(attempts := 0)
      && forall i: TaskId | i < |db.tasks| && i != id ::
        db'.tasks[i] == if InSubtree(db, id, i) && !db.tasks[i].state.IsTerminal()
                        then Moved(db.tasks[i], Superseded, now).(supersededBy := Some(id)) else db.tasks[i]
  {
    SubtreeMembers(db, id);
    SupersedeEachExact(db, id, Subtree(db, id), now);
    ReplanUnfolds(db, id, actor, now);
  }

  lemma ReplanUnfolds(db: Db, id: TaskId, actor: ActorClass, now: int)
    requires Replan(db, id, actor, now).Ok?
    ensures id < |db.tasks| && SupersedeEach(db, id, Subtree(db, id), now).Ok?
    ensures var db1 := SupersedeEach(db, id, Subtree(db, id), now).value;
      id < |db1.tasks| && Replan(db, id, actor, now).value.tasks
        == db1.tasks[id := Moved(db1.tasks[id], Decomposing, now).(attempts := 0)]
  {
    hide SupersedeEach, Subtree;
  }

  // ---- failed dependencies ----

  lemma {:induction false} BlockEachExact(db: Db, leaf: TaskId, sibs: seq<TaskId>, now: int)
    requires BlockEach(db, leaf, sibs, now).Ok?
    ensures var db' := BlockEach(db, leaf, sibs, now).value;
      && |db'.tasks| == |db.tasks|
      && forall i: TaskId | i < |db.tasks| ::
        db'.tasks[i] == if i in sibs && db.tasks[i].state.Ready? && leaf in db.tasks[i].dependsOn
                        then Moved(db.tasks[i], Blocked, now) else db.tasks[i]
    decreases |sibs|
  {
    if |sibs| > 0 {
      assert forall x :: x in sibs <==> x == sibs[0] || x in sibs[1..];
      if db.tasks[sibs[0]].state.Ready? && leaf in db.tasks[sibs[0]].dependsOn {
        BlockEachExact(Transition(db, sibs[0], Blocked, RollupPass, now).value, leaf, sibs[1..], now);
      } else {
        BlockEachExact(db, leaf, sibs[1..], now);
      }
    }
  }

  /** Exactly the ready dependents are blocked, wherever in the table they are. */
  lemma DependentsAreBlocked(db: Db, id: TaskId, now: int)
    requires Inv(db) && id < |db.tasks| && BlockDependents(db, id, db.tasks[id].parent, now).Ok?
    ensures var db' := BlockDependents(db, id, db.tasks[id].parent, now).value;
      && |db'.tasks| == |db.tasks|
      && forall i: TaskId | i < |db.tasks| ::
        db'.tasks[i] == if db.tasks[i].state.Ready? && id in db.tasks[i].dependsOn
                        then Moved(db.tasks[i], Blocked, now) else db.tasks[i]
  {
    var parent := db.tasks[id].parent;
    if parent.Some? {
      BlockEachExact(db, id, Kids(db, parent.value), now);
    }
    forall i: TaskId | i < |db.tasks| && id in db.tasks[i].dependsOn
      ensures parent.Some? && i in Kids(db, parent.value)
    {
      assert DepsAmongSiblings(db.tasks, db.tasks[i]);
      KidIsListed(db.tasks, i, |db.tasks|);
    }
  }

  lemma RollupReadiesNothing(db: Db, id: TaskId, parent: Option<TaskId>, now: int)
    requires Rooted(db) && (parent.Some? ==> parent.value < |db.tasks|)
    requires RollupFrom(db, parent, now).Ok?
    requires forall i: TaskId | i < |db.tasks| && id in db.tasks[i].dependsOn :: !db.tasks[i].state.Ready?
    ensures var db' := RollupFrom(db, parent, now).value;
      forall i: TaskId | i < |db'.tasks| && id in db'.tasks[i].dependsOn :: !db'.tasks[i].state.Ready?
  {
    RollupMovesParents(db, parent, now);
  }

  /**
   * Right after a leaf fails, or its review is closed unmerged, no ready task depends on it, although
   * only its siblings are scanned.
   */
  lemma FailureBlocksDependents(db: Db, op: Op, now: int)
    requires Inv(db) && (op.FailOp? || (op.ResolveReviewOp? && !op.merged)) && Apply(db, op, now).Ok?
    ensures var db' := Apply(db, op, now).value;
      forall i: TaskId | i < |db'.tasks| && op.task in db'.tasks[i].dependsOn :: !db'.tasks[i].state.Ready?
  {
    hide Inv, Fail, ResolveReview;
    if op.FailOp? {
      FailLeavesNoReadyDependent(db, op.task, op.owner, op.timedOut, op.checked, now);
    } else {
      CloseLeavesNoReadyDependent(db, op.task, now);
    }
  }

  lemma FailLeavesNoReadyDependent(db: Db, id: TaskId, owner: Owner, timedOut: bool, checked: bool, now: int)
    requires Inv(db) && Fail(db, id, owner, timedOut, checked, now).Ok?
    ensures var db' := Fail(db, id, owner, timedOut, checked, now).value;
      forall i: TaskId | i < |db'.tasks| && id in db'.tasks[i].dependsOn :: !db'.tasks[i].state.Ready?
  {
    hide Inv, BlockDependents, Rollup, KidStates;
    var outcome := if timedOut then TimedOut else Erred;
    SoundTree(db);
    ReleasingKeeps(db, id, Failed, Worker, now, Some(owner), outcome);
    var db1 := CloseWork(Transition(db, id, Failed, Worker, now).value, id, Some(owner), outcome);
    BlockingAndRollup(db1, id, now);
    var db2 := BlockDependents(db1, id, db.tasks[id].parent, now).value;
    assert Fail(db, id, owner, timedOut, checked, now) == RollupFrom(db2, db.tasks[id].parent, now);
  }

  lemma CloseLeavesNoReadyDependent(db: Db, id: TaskId, now: int)
    requires Inv(db) && ResolveReview(db, id, false, now).Ok?
    ensures var db' := ResolveReview(db, id, false, now).value;
      forall i: TaskId | i < |db'.tasks| && id in db'.tasks[i].dependsOn :: !db'.tasks[i].state.Ready?
  {
    hide Inv, BlockDependents, Rollup, KidStates;
    SoundTree(db);
    TransitionKeeps(db, id, Failed, Poller, now);
    var db1 := Transition(db, id, Failed, Poller, now).value;
    BlockingAndRollup(db1, id, now);
    var db2 := BlockDependents(db1, id, db.tasks[id].parent, now).value;
    assert ResolveReview(db, id, false, now) == RollupFrom(db2, db.tasks[id].parent, now);
  }

  lemma BlockingAndRollup(db: Db, id: TaskId, now: int)
    requires Inv(db) && id < |db.tasks| && BlockDependents(db, id, db.tasks[id].parent, now).Ok?
    ensures Rooted(BlockDependents(db, id, db.tasks[id].parent, now).value)
    ensures var parent := db.tasks[id].parent; var db' := BlockDependents(db, id, parent, now).value;
      && (parent.Some? ==> parent.value < |db'.tasks|)
      && (RollupFrom(db', parent, now).Ok? ==>
            var db'' := RollupFrom(db', parent, now).value;
            forall i: TaskId | i < |db''.tasks| && id in db''.tasks[i].dependsOn :: !db''.tasks[i].state.Ready?)
  {
    hide Inv, BlockDependents, Rollup, KidStates;
    SoundTree(db);
    DependentsAreBlocked(db, id, now);
    var db' := BlockDependents(db, id, db.tasks[id].parent, now).value;
    if RollupFrom(db', db.tasks[id].parent, now).Ok? {
      RollupReadiesNothing(db', id, db.tasks[id].parent, now);
    }
  }

  // ---- planning is finite ----

  /** The plan attempt counters are within the campaign's limit, strictly while a plan is in flight. */
  ghost predicate PlansBounded(db: Db) {
    forall i: TaskId | i < |db.tasks| :: PlanBounded(db, db.tasks[i])
  }

  predicate PlanBounded(db: Db, t: Task) {
    && AttemptLimit(db, t).Some?
    && t.attempts <= AttemptLimit(db, t).value
    && (t.state.Decomposing? ==> t.attempts < AttemptLimit(db, t).value)
  }

  lemma {:induction false} CampaignExists(db: Db, i: TaskId)
    requires TreeOk(db) && i < |db.tasks|
    ensures db.tasks[i].campaign < |db.tasks|
  {
    assert NodeOk(db, i);
    if db.tasks[i].parent.Some? {
      CampaignExists(db, db.tasks[i].parent.value);
    }
  }

  /** With the policies fixed, every protocol keeps the counters within the limit. */
  lemma StepKeepsPlansBounded(db: Db, step: Step)
    requires Inv(db) && PlansBounded(db) && !step.op.UpdatePolicyOp?
    ensures PlansBounded(After(db, step))
  {
    var db' := After(db, step);
    if Apply(db, step.op, step.now).Ok? {
      ApplyEffects(db, step.op, step.now);
      forall i: TaskId | i < |db'.tasks|
        ensures PlanBounded(db', db'.tasks[i])
      {
        CampaignExists(db', i);
        var c := db'.tasks[i].campaign;
        if i < |db.tasks| {
          assert RowEffect(db, step.op, i, db'.tasks[i]) && PlanBounded(db, db.tasks[i]);
          CampaignExists(db, i);
          assert RowEffect(db, step.op, c, db'.tasks[c]);
        } else {
          assert Newborn(db'.tasks[i]);
        }
      }
    }
  }

  function Committed(db: Db, step: Step): bool
    requires Rooted(db)
  {
    Apply(db, step.op, step.now).Ok?
  }

  /** How many error closes the run records on `id`. */
  ghost function PlanErrors(db: Db, steps: seq<Step>, id: TaskId): nat
    requires Inv(db)
    decreases |steps|
  {
    if |steps| == 0 then 0
    else
      (if Committed(db, steps[0]) && RecordsPlanError(steps[0].op, id) then 1 else 0)
        + PlanErrors(After(db, steps[0]), steps[1..], id)
  }

  /**
   * With the policies fixed, a run without a replan of the node counts every error close in `attempts`,
   * so it records at most as many as the limit leaves: retries and stale-plan releases give none back.
   */
  lemma {:induction false} PlanningIsFinite(db: Db, steps: seq<Step>, id: TaskId)
    requires Inv(db) && PlansBounded(db) && id < |db.tasks|
    requires forall k | 0 <= k < |steps| :: !steps[k].op.UpdatePolicyOp? && !Replans(steps[k].op, id)
    ensures var db' := Run(db, steps);
      && PlansBounded(db') && id < |db'.tasks|
      && db'.tasks[id].attempts == db.tasks[id].attempts + PlanErrors(db, steps, id)
      && AttemptLimit(db', db'.tasks[id]) == AttemptLimit(db, db.tasks[id])
      && db.tasks[id].attempts + PlanErrors(db, steps, id) <= AttemptLimit(db, db.tasks[id]).value
    decreases |steps|
  {
    assert PlanBounded(db, db.tasks[id]);
    if |steps| > 0 {
      var db1 := After(db, steps[0]);
      StepKeepsPlansBounded(db, steps[0]);
      if Committed(db, steps[0]) {
        ApplyEffects(db, steps[0].op, steps[0].now);
        assert RowEffect(db, steps[0].op, id, db1.tasks[id]);
        var c := db.tasks[id].campaign;
        CampaignExists(db, id);
        assert RowEffect(db, steps[0].op, c, db1.tasks[c]);
      }
      PlanningIsFinite(db1, steps[1..], id);
    }
  }

  /**
   * Whatever the policies, and however they change: no counter passes the largest limit that a policy may set,
   * and one that is being planned is below it.
   */
  ghost predicate WithinTen(db: Db) {
    forall i: TaskId | i < |db.tasks| :: db.tasks[i].attempts <= 10 && (db.tasks[i].state.Decomposing? ==> db.tasks[i].attempts < 10)
  }

  lemma LimitIsAtMostTen(db: Db, t: Task)
    requires Inv(db)
    ensures AttemptLimit(db, t).Some? ==> AttemptLimit(db, t).value <= 10
  {
  }

  lemma StepStaysWithinTen(db: Db, step: Step)
    requires Inv(db) && WithinTen(db)
    ensures WithinTen(After(db, step))
  {
    var db' := After(db, step);
    if Apply(db, step.op, step.now).Ok? {
      ApplyEffects(db, step.op, step.now);
      forall i: TaskId | i < |db'.tasks|
        ensures db'.tasks[i].attempts <= 10 && (db'.tasks[i].state.Decomposing? ==> db'.tasks[i].attempts < 10)
      {
        if i < |db.tasks| {
          assert RowEffect(db, step.op, i, db'.tasks[i]);
          LimitIsAtMostTen(db, db.tasks[i]);
        } else {
          assert Newborn(db'.tasks[i]);
        }
      }
    }
  }

  /** Every run from the empty store stays within ten. */
  lemma {:induction false} RunStaysWithinTen(db: Db, steps: seq<Step>)
    requires Inv(db) && WithinTen(db)
    ensures WithinTen(Run(db, steps))
    ensures WithinTen(EMPTY)
    decreases |steps|
  {
    if |steps| > 0 {
      StepStaysWithinTen(db, steps[0]);
      RunStaysWithinTen(After(db, steps[0]), steps[1..]);
    }
  }

  /**
   * Over any run without a replan of the node, policy updates included, `attempts` rises by exactly the error
   * closes recorded and never passes ten.
   */
  lemma {:induction false} PlanningIsFiniteAnyPolicy(db: Db, steps: seq<Step>, id: TaskId)
    requires Inv(db) && WithinTen(db) && id < |db.tasks|
    requires forall k | 0 <= k < |steps| :: !Replans(steps[k].op, id)
    ensures WithinTen(Run(db, steps)) && id < |Run(db, steps).tasks|
    ensures Run(db, steps).tasks[id].attempts == db.tasks[id].attempts + PlanErrors(db, steps, id) <= 10
    decreases |steps|
  {
    if |steps| > 0 {
      var db1 := After(db, steps[0]);
      StepStaysWithinTen(db, steps[0]);
      if Committed(db, steps[0]) {
        ApplyEffects(db, steps[0].op, steps[0].now);
        assert RowEffect(db, steps[0].op, id, db1.tasks[id]);
      }
      PlanningIsFiniteAnyPolicy(db1, steps[1..], id);
    }
  }

  // ---- the tree ----

  /** In every state that satisfies the invariants, no two rows share a path. */
  lemma {:induction false} PathsAreUnique(db: Db, i: TaskId, j: TaskId)
    requires TreeOk(db) && i < |db.tasks| && j < |db.tasks|
    requires db.tasks[i].path == db.tasks[j].path
    ensures i == j
    decreases |db.tasks[i].path|
  {
    assert NodeOk(db, i) && NodeOk(db, j);
    assert db.tasks[i].parent.Some? ==> NodeOk(db, db.tasks[i].parent.value);
    assert db.tasks[j].parent.Some? ==> NodeOk(db, db.tasks[j].parent.value);
    if db.tasks[i].parent.Some? && db.tasks[j].parent.Some? {
      PathsAreUnique(db, db.tasks[i].parent.value, db.tasks[j].parent.value);
      OrdinalsAreUnique(db, i, j);
    }
  }

  lemma OrdinalsAreUnique(db: Db, i: TaskId, j: TaskId)
    requires TreeOk(db) && i < |db.tasks| && j < |db.tasks|
    requires db.tasks[i].parent.Some? && db.tasks[i].parent == db.tasks[j].parent
    requires db.tasks[i].Ordinal() == db.tasks[j].Ordinal()
    ensures i == j
  {
    var p := db.tasks[i].parent.value;
    assert NodeOk(db, p);
    KidIsListed(db.tasks, i, |db.tasks|);
    KidIsListed(db.tasks, j, |db.tasks|);
    var a :| 0 <= a < |Kids(db, p)| && Kids(db, p)[a] == i;
    var b :| 0 <= b < |Kids(db, p)| && Kids(db, p)[b] == j;
    assert db.tasks[Kids(db, p)[a]].Ordinal() == a + 1 && db.tasks[Kids(db, p)[b]].Ordinal() == b + 1;
  }

  ghost predicate HasChildNumbered(db: Db, id: TaskId, ordinal: nat) {
    exists c: TaskId | c < |db.tasks| :: db.tasks[c].parent == Some(id) && db.tasks[c].Ordinal() == ordinal
  }

  /** A node's children carry exactly the ordinals 1..k, with k at most 8, and a leaf has none. */
  lemma ChildNumbering(db: Db, id: TaskId)
    requires Inv(db) && id < |db.tasks|
    ensures MaxOrdinal(db, Kids(db, id)) == |Kids(db, id)| <= 8
    ensures forall o: nat :: HasChildNumbered(db, id, o) <==> 1 <= o <= |Kids(db, id)|
    ensures db.tasks[id].kind.Leaf? ==> |Kids(db, id)| == 0
  {
    var kids := Kids(db, id);
    assert NodeOk(db, id);
    MaxOrdinalIsCount(db, kids);
    forall o: nat
      ensures HasChildNumbered(db, id, o) <==> 1 <= o <= |kids|
    {
      if 1 <= o <= |kids| {
        assert db.tasks[kids[o - 1]].Ordinal() == o && db.tasks[kids[o - 1]].parent == Some(id);
      }
      if HasChildNumbered(db, id, o) {
        var c: TaskId :| c < |db.tasks| && db.tasks[c].parent == Some(id) && db.tasks[c].Ordinal() == o;
        KidIsListed(db.tasks, c, |db.tasks|);
        var a :| 0 <= a < |kids| && kids[a] == c;
        assert db.tasks[kids[a]].Ordinal() == a + 1;
      }
    }
    if |kids| > 0 {
      assert NodeOk(db, kids[0]);
    }
  }
}
