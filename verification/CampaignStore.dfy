/**
 * The store itself: a transaction works on its own copy of the tables, step by step, and the store
 * takes the copy over only when the protocol reaches its commit. Every method is proved to be the
 * protocol function of the same name.
 */
module CampaignStore {
  import opened Outcomes
  import opened CampaignRules
  import opened CampaignTables
  import opened CampaignInvariants
  import opened CampaignSafety
  import opened CampaignRuns
  import opened CampaignPass
  import opened CampaignEndings
  import opened CampaignSweeps
  import opened CampaignVerdicts
  import P = CampaignProtocols

  type Status = Result<(), Error>

  /** A step inside a transaction; after an error the working copy is dropped. */
  ghost predicate Did(outcome: Outcome, after: Db, r: Status) {
    match outcome
    case Ok(db) => r == Ok(()) && after == db
    case Err(e) => r == Err(e)
  }

  /** A whole protocol: committed as specified, or nothing has changed. */
  ghost predicate Commits(before: Db, outcome: Outcome, after: Db, r: Status) {
    match outcome
    case Ok(db) => r == Ok(()) && after == db
    case Err(e) => r == Err(e) && after == before
  }

  /** The caller sees the first guard that failed, or success. */
  ghost predicate Answers(refusal: Option<Error>, r: Status) {
    match refusal
    case None => r == Ok(())
    case Some(e) => r == Err(e)
  }

  // ---- what a commit means for leases, subtrees and dependents ----

  /** The call was the lessee's, and of all attempts it closed the one that the leaf's latest claim opened. */
  ghost predicate ClosesOwnClaim(before: Db, after: Db, id: TaskId, owner: Owner, outcome: AttemptOutcome) {
    && id < |before.tasks| && before.tasks[id].claimedBy == Some(owner) && before.tasks[id].state.Running?
    && LastWork(before.attempts, id).Some?
    && var k := LastWork(before.attempts, id).value;
      && before.attempts[k].owner == Some(owner) && before.attempts[k].outcome.Pending?
      && after.attempts == before.attempts[k := before.attempts[k].(outcome := outcome)]
  }

  ghost predicate NoReadyDependent(db: Db, id: TaskId) {
    forall i: TaskId | i < |db.tasks| && id in db.tasks[i].dependsOn :: !db.tasks[i].state.Ready?
  }

  /** Exactly the expired rows that nobody has locked have lost their owner; no other row has moved. */
  ghost predicate TakesBackExpired(before: Db, after: Db, busy: set<TaskId>, now: int) {
    && |after.tasks| == |before.tasks|
    && forall i: TaskId | i < |before.tasks| ::
      if P.Expired(before, i, now) && i !in busy then after.tasks[i].claimedBy.None? else after.tasks[i] == before.tasks[i]
  }

  /** Every row of the subtree is terminal and unleased. */
  ghost predicate SubtreeEnded(before: Db, after: Db, id: TaskId) {
    && |after.tasks| == |before.tasks| && id < |before.tasks|
    && forall i: TaskId | i < |before.tasks| && InSubtree(before, id, i) ::
      after.tasks[i].state.IsTerminal() && after.tasks[i].claimedBy.None?
  }

  /** The node is planned afresh, its unfinished descendants are superseded, and no other row has moved. */
  ghost predicate PlannedAfresh(before: Db, after: Db, id: TaskId) {
    && |after.tasks| == |before.tasks| && id < |before.tasks|
    && after.tasks[id].state.Decomposing? && after.tasks[id].attempts == 0
    && forall i: TaskId | i < |before.tasks| && i != id ::
      if InSubtree(before, id, i) && !before.tasks[i].state.IsTerminal()
      then after.tasks[i].state.Superseded? && after.tasks[i].claimedBy.None? else after.tasks[i] == before.tasks[i]
  }

  lemma CompleteMeans(db: Db, id: TaskId, owner: Owner, checked: bool, now: int)
    requires Inv(db) && P.Complete(db, id, owner, checked, now).Ok?
    ensures ClosesOwnClaim(db, P.Complete(db, id, owner, checked, now).value, id, owner, Pr)
  {
    hide Inv, P.Complete;
    CompleteAttempts(db, id, owner, checked, now);
    CloseIsExact(db, id, owner, Pr);
  }

  lemma FailMeans(db: Db, id: TaskId, owner: Owner, timedOut: bool, checked: bool, now: int)
    requires Inv(db) && P.Fail(db, id, owner, timedOut, checked, now).Ok?
    ensures ClosesOwnClaim(db, P.Fail(db, id, owner, timedOut, checked, now).value, id, owner, if timedOut then TimedOut else Erred)
    ensures NoReadyDependent(P.Fail(db, id, owner, timedOut, checked, now).value, id)
  {
    hide Inv, P.Fail;
    SoundTree(db);
    FailAttempts(db, id, owner, timedOut, checked, now);
    CloseIsExact(db, id, owner, if timedOut then TimedOut else Erred);
    FailLeavesNoReadyDependent(db, id, owner, timedOut, checked, now);
  }

  /** A settled review leaves the leaf done or failed, as it was merged or not. */
  lemma ReviewMeans(db: Db, id: TaskId, merged: bool, now: int)
    requires Inv(db) && Rooted(db) && P.ResolveReview(db, id, merged, now).Ok?
    ensures var db' := P.ResolveReview(db, id, merged, now).value;
      && id < |db'.tasks| && db'.tasks[id].state == (if merged then Done else Failed)
      && db'.attempts == db.attempts
      && (merged ==> MovesThenPass(db, db', id, Done, Poller, now))
      && (!merged ==> FailsThenPass(db, db', id, Poller, now) && NoReadyDependent(db', id))
  {
    hide Inv, P.ResolveReview;
    if merged {
      MergeEnds(db, id, now);
    } else {
      RejectionEnds(db, id, now);
      CloseLeavesNoReadyDependent(db, id, now);
    }
  }

  lemma ReapMeans(db: Db, busy: set<TaskId>, now: int)
    ensures P.Reap(db, busy, now).Ok? ==> TakesBackExpired(db, P.Reap(db, busy, now).value, busy, now)
  {
    if P.Reap(db, busy, now).Ok? {
      ReapTakesBack(db, busy, now);
    }
  }

  /** Every row that has changed is leased until `end`. */
  ghost predicate HeldUntil(before: Db, after: Db, end: int) {
    && |after.tasks| == |before.tasks|
    && forall i: TaskId | i < |before.tasks| && after.tasks[i] != before.tasks[i] ::
      after.tasks[i].state.Claimed? && after.tasks[i].leaseUntil == Some(end)
  }

  lemma ClaimHolds(before: Db, after: Db, limit: nat, owner: Owner, leaseSecs: int, busy: set<TaskId>, now: int)
    requires ClaimTaken(before, after, limit, owner, leaseSecs, busy, now)
    ensures 60 <= leaseSecs <= 86_400 ==> HeldUntil(before, after, now + 1000 * leaseSecs)
  {
    hide FirstOfQueue;
  }

  lemma CancelMeans(db: Db, id: TaskId, actor: ActorClass, now: int)
    requires Inv(db)
    ensures P.Cancel(db, id, actor, now).Ok? ==> SubtreeEnded(db, P.Cancel(db, id, actor, now).value, id)
  {
    if P.Cancel(db, id, actor, now).Ok? {
      CancelEndsSubtree(db, id, actor, now);
      assert forall i: TaskId | i < |db.tasks| :: LeaseOk(db.tasks[i]);
    }
  }

  lemma ReplanMeans(db: Db, id: TaskId, actor: ActorClass, now: int)
    ensures P.Replan(db, id, actor, now).Ok? ==> PlannedAfresh(db, P.Replan(db, id, actor, now).value, id)
  {
    if P.Replan(db, id, actor, now).Ok? {
      ReplanSupersedes(db, id, actor, now);
    }
  }

  /** One protocol's transaction: its working copy of the tables and its clock reading. */
  class Tx {
    var db: Db
    const now: int

    constructor (db: Db, now: int)
      ensures this.db == db && this.now == now
    {
      this.db := db;
      this.now := now;
    }

    /** The row, locked for the rest of the transaction. */
    method Lock(id: TaskId) returns (r: Result<Task, Error>)
      ensures r == Get(db, id)
    {
      r := Get(db, id);
    }

    method Event(id: TaskId, from: Option<TaskState>, to: TaskState, actor: ActorClass, version: nat, note: Note)
      modifies this`db
      ensures db == old(db).(events := old(db).events + [CampaignTables.Event(id, from, to, actor, version, note)])
    {
      db := db.(events := db.events + [CampaignTables.Event(id, from, to, actor, version, note)]);
    }

    method Update(id: TaskId, row: Task)
      requires id < |db.tasks|
      modifies this`db
      ensures db == Put(old(db), id, row)
    {
      db := db.(tasks := db.tasks[id := row]);
    }

    method Transition(id: TaskId, to: TaskState, actor: ActorClass) returns (r: Status)
      modifies this`db
      ensures Did(CampaignTables.Transition(old(db), id, to, actor, now), db, r)
    {
      hide Allowed;
      var t :- Lock(id);
      :- Need(Allowed(t.state, to, t.kind, actor), Denied);
      Update(id, Moved(t, to, now));
      Event(id, Some(t.state), to, actor, t.version + 1, Plain);
      return Ok(());
    }

    method InsertAttempt(a: Attempt) returns (r: Status)
      modifies this`db
      ensures Did(CampaignTables.InsertAttempt(old(db), a), db, r)
    {
      var isNew := !IdemExists(db, a.idem);
      :- Need(isNew, AlreadyApplied);
      db := db.(attempts := db.attempts + [a]);
      return Ok(());
    }

    /** The same insert where the key has already been looked up in this transaction. */
    method AppendAttempt(a: Attempt)
      requires !IdemExists(db, a.idem)
      modifies this`db
      ensures Did(CampaignTables.InsertAttempt(old(db), a), db, Ok(()))
    {
      db := db.(attempts := db.attempts + [a]);
    }

    method ClaimRow(id: TaskId, position: nat, owner: Owner, lease: int) returns (r: Status)
      requires id < |db.tasks|
      modifies this`db
      ensures Did(P.ClaimOne(old(db), id, position, owner, lease, now), db, r)
    {
      var t := db.tasks[id];
      Update(id, t.(state := Claimed, version := t.version + 1, updatedAt := now,
                    claimedBy := Some(owner), leaseUntil := Some(now + 1000 * lease)));
      Event(id, Some(Ready), Claimed, Driver, t.version + 1, Plain);
      r := InsertAttempt(Attempt(id, Work, IdemKey(id, t.version + 1, now, position), Some(owner), Pending, 0));
    }

    method ReapRow(id: TaskId) returns (r: Status)
      modifies this`db
      ensures Did(P.ReapOne(old(db), id, now), db, r)
    {
      hide Allowed;
      var t :- Lock(id);
      :- Need(Allowed(t.state, Ready, Leaf, Reaper), Denied);
      Update(id, t.(state := Ready, version := t.version + 1, updatedAt := now, claimedBy := None, leaseUntil := None));
      Event(id, Some(t.state), Ready, Reaper, t.version + 1, Plain);
      CloseWork(id, None, LostLease);
      return Ok(());
    }

    method CloseWork(id: TaskId, owner: Option<Owner>, outcome: AttemptOutcome)
      modifies this`db
      ensures db == CampaignTables.CloseWork(old(db), id, owner, outcome)
    {
      db := db.(attempts := CloseAttempts(db.attempts, id, owner, outcome));
    }

    method BlockDependents(leaf: TaskId, parent: Option<TaskId>) returns (r: Status)
      requires Rooted(db)
      modifies this`db
      ensures Did(CampaignTables.BlockDependents(old(db), leaf, parent, now), db, r)
      ensures r.Ok? ==> Rooted(db)
    {
      if parent.None? {
        return Ok(());
      }
      var sibs := Kids(db, parent.value);
      for i := 0 to |sibs|
        invariant Rooted(db)
        invariant BlockEach(db, leaf, sibs[i..], now) == BlockEach(old(db), leaf, sibs, now)
      {
        assert sibs[i..][1..] == sibs[i + 1..];
        var sib :- Lock(sibs[i]);
        if sib.state.Ready? && leaf in sib.dependsOn {
          var _ :- Transition(sibs[i], Blocked, RollupPass);
        }
      }
      return Ok(());
    }

    /** Cancel every live row of the list, closing its work. */
    method CancelEach(ids: seq<TaskId>) returns (r: Status)
      requires Rooted(db)
      modifies this`db
      ensures Did(P.CancelEach(old(db), ids, now), db, r)
    {
      for i := 0 to |ids|
        invariant Rooted(db)
        invariant P.CancelEach(db, ids[i..], now) == P.CancelEach(old(db), ids, now)
      {
        assert ids[i..][1..] == ids[i + 1..];
        var node :- Lock(ids[i]);
        if !node.state.IsTerminal() {
          var _ :- Transition(ids[i], Cancelled, User);
          CloseWork(ids[i], None, LostLease);
        }
      }
      return Ok(());
    }

    /** Supersede every live row of the list but the root, closing its work. */
    method SupersedeEach(root: TaskId, ids: seq<TaskId>) returns (r: Status)
      modifies this`db
      ensures Did(P.SupersedeEach(old(db), root, ids, now), db, r)
    {
      for i := 0 to |ids|
        invariant P.SupersedeEach(db, root, ids[i..], now) == P.SupersedeEach(old(db), root, ids, now)
      {
        assert ids[i..][1..] == ids[i + 1..];
        var node :- Lock(ids[i]);
        if ids[i] != root && !node.state.IsTerminal() {
          var _ :- Transition(ids[i], Superseded, User);
          var moved :- Lock(ids[i]);
          Update(ids[i], moved.(supersededBy := Some(root)));
          CloseWork(ids[i], None, LostLease);
        }
      }
      return Ok(());
    }

    /** Close the plan as blocked, which the parent has to see. */
    method BlockPlan(id: TaskId, parent: Option<TaskId>) returns (r: Status)
      requires Rooted(db) && (parent.Some? ==> parent.value < |db.tasks|)
      modifies this`db
      ensures Did(P.BlockPlan(old(db), id, parent, now), db, r)
    {
      var _ :- Transition(id, Blocked, Planner);
      r := RollupFrom(parent);
    }

    /** Parent upward, stopping at the first unchanged ancestor. */
    method RollupFrom(parent: Option<TaskId>) returns (r: Status)
      requires Rooted(db) && (parent.Some? ==> parent.value < |db.tasks|)
      modifies this`db
      ensures Did(CampaignTables.RollupFrom(old(db), parent, now), db, r)
      ensures r.Ok? ==> PassedOver(old(db), db, parent, now)
    {
      hide PassedOver;
      if CampaignTables.RollupFrom(db, parent, now).Ok? {
        PassEnds(db, parent, now);
      }
      var above: Option<TaskId> := parent;
      while above.Some?
        invariant Rooted(db) && (above.Some? ==> above.value < |db.tasks|)
        invariant CampaignTables.RollupFrom(db, above, now) == CampaignTables.RollupFrom(old(db), parent, now)
        decreases if above.Some? then above.value + 1 else 0
      {
        var row := Lock(above.value);
        var p := row.value;
        var next := Rollup(p.state, KidStates(db, above.value));
        if next.None? {
          break;
        }
        var _ :- Transition(above.value, next.value, RollupPass);
        above := p.parent;
      }
      return Ok(());
    }
  }

  class PgCampaigns {
    var db: Db

    constructor ()
      ensures Valid() && db == EMPTY
    {
      db := EMPTY;
      EmptyIsFine();
    }

    /** Every invariant holds at every commit. */
    ghost predicate Valid()
      reads this
    {
      Inv(db)
    }

    // ---- (a) create ----

    method Create(actor: ActorClass, draft: bool, policy: Option<Policy>, checked: bool, now: int) returns (r: Status)
      requires Valid()
      modifies this
      ensures Valid()
      ensures Commits(old(db), P.Create(old(db), actor, draft, policy, checked, now), db, r)
      ensures Answers(Refusal(old(db), P.CreateOp(actor, draft, policy, checked), now), r)
      ensures r.Ok? ==> Created(old(db), db, draft, policy, now)
    {
      hide Inv, Refusal, Created;
      SoundTree(db);
      if P.Create(db, actor, draft, policy, checked, now).Ok? {
        CreateKeeps(db, actor, draft, policy, checked, now);
        CreateEnds(db, actor, draft, policy, checked, now);
      }
      CreateVerdict(db, actor, draft, policy, checked, now);
      var byUser := actor.User?;
      :- Need(byUser, Denied);
      :- Need(checked && (policy.Some? ==> policy.value.Valid()), Invalid);
      var tx := new Tx(db, now);
      var state := if draft then Draft else Ready;
      var id := |tx.db.tasks|;
      tx.db := tx.db.(tasks := tx.db.tasks + [P.NewRoot(id, state, if policy.Some? then policy.value else DEFAULT_POLICY, now)]);
      tx.Event(id, None, state, User, 1, Plain);
      db := tx.db;
      return Ok(());
    }

    // ---- (b) plan ----

    method PlanStart(id: TaskId, now: int) returns (r: Status)
      requires Valid()
      modifies this
      ensures Valid()
      ensures Commits(old(db), P.PlanStart(old(db), id, now), db, r)
      ensures Answers(Refusal(old(db), P.PlanStartOp(id), now), r)
      ensures r.Ok? ==> PlanStarted(old(db), db, id, now)
    {
      hide Inv, Refusal, PlanStarted;
      SoundTree(db);
      if P.PlanStart(db, id, now).Ok? {
        PlanStartKeeps(db, id, now);
        PlanStartEnds(db, id, now);
      }
      PlanStartVerdict(db, id, now);
      var tx := new Tx(db, now);
      var t :- tx.Lock(id);
      :- Need(!t.kind.Leaf?, Denied);
      :- P.RequireState(t, Ready);
      var policy :- PolicyOf(tx.db, t.campaign);
      if t.attempts >= policy.maxPlanAttempts || PlanTokens(tx.db, t.campaign, |tx.db.attempts|) >= policy.maxPlanTokens {
        var _ :- tx.Transition(id, Blocked, Planner);
        r := tx.RollupFrom(t.parent);
      } else {
        r := tx.Transition(id, Decomposing, Planner);
      }
      if r.Ok? {
        db := tx.db;
      }
    }

    /** Insert the batch bare, then turn its dependency ordinals into the new rows' ids. */
    method Decompose(id: TaskId, expected: nat, key: IdemKey, tokens: nat, deps: seq<seq<nat>>, checked: bool, now: int)
      returns (r: Status)
      requires Valid()
      modifies this
      ensures Valid()
      ensures Commits(old(db), P.Decompose(old(db), id, expected, key, tokens, deps, checked, now), db, r)
      ensures Answers(Refusal(old(db), P.DecomposeOp(id, expected, key, tokens, deps, checked), now), r)
      ensures r.Ok? ==> SplitInto(old(db), db, id, key, tokens, deps, now)
    {
      hide Inv, Refusal, SplitInto, P.DepsInBatch, CampaignNodes, Kids, P.MaxOrdinal;
      SoundTree(db);
      if P.Decompose(db, id, expected, key, tokens, deps, checked, now).Ok? {
        DecomposeKeeps(db, id, expected, key, tokens, deps, checked, now);
        DecomposeEnds(db, id, expected, key, tokens, deps, checked, now);
      }
      DecomposeVerdict(db, id, expected, key, tokens, deps, checked, now);
      var isNew := !IdemExists(db, key);
      :- Need(isNew, AlreadyApplied);
      var tx := new Tx(db, now);
      var parent :- tx.Lock(id);
      :- Need(!parent.kind.Leaf?, Denied);
      :- P.Cas(parent, expected, Decomposing);
      :- Need(1 <= |deps| <= 8, Invalid);
      :- Need(checked && P.DepsInBatch(deps), Invalid);
      var policy :- PolicyOf(tx.db, parent.campaign);
      :- Need(parent.Depth() + 1 <= policy.DepthCap(), Invalid);
      var kids := Kids(tx.db, id);
      :- Need(|kids| + |deps| <= policy.ChildrenCap(), Invalid);
      :- Need(CampaignNodes(tx.db.tasks, parent.campaign) + |deps| <= policy.maxNodes, Invalid);
      var maxOrd := P.MaxOrdinal(tx.db, kids);
      tx.AppendAttempt(Attempt(id, Planning, key, None, Split, tokens));
      var state := if policy.Gated(parent.Depth() + 1) then AwaitingApproval else Ready;
      var _ :- InsertBatch(tx, id, state, maxOrd, deps);
      r := tx.Transition(id, Decomposed, Planner);
      if r.Ok? {
        db := tx.db;
      }
    }

    static method InsertBatch(tx: Tx, id: TaskId, state: TaskState, maxOrd: nat, deps: seq<seq<nat>>) returns (r: Status)
      requires id < |tx.db.tasks| && P.DepsInBatch(deps)
      modifies tx`db
      ensures Did(P.AddKids(old(tx.db), id, state, maxOrd, |old(tx.db).tasks|, deps, 0, tx.now), tx.db, r)
    {
      hide P.AddKids, Bare;
      ghost var start := tx.db;
      var base := |tx.db.tasks|;
      var ids :- InsertBare(tx, id, state, maxOrd, deps);
      ghost var whole := P.AddKids(start, id, state, maxOrd, base, deps, 0, tx.now).value;
      for i := 0 to |deps|
        invariant tx.db == Bare(whole, base + i)
      {
        BareFills(whole, base + i);
        if |deps[i]| > 0 {
          assert forall j | 0 <= j < |deps[i]| :: deps[i][j] in deps[i];
          var row := tx.db.tasks[base + i];
          var depIds := seq(|deps[i]|, j requires 0 <= j < |deps[i]| => ids[deps[i][j] - 1]);
          assert depIds == P.BatchIds(deps[i], base);
          tx.Update(base + i, row.(dependsOn := depIds));
        }
      }
      BareOfNothing(whole);
      return Ok(());
    }

    /** Insert the batch without its dependencies, and return the new ids in batch order. */
    static method InsertBare(tx: Tx, id: TaskId, state: TaskState, maxOrd: nat, deps: seq<seq<nat>>)
      returns (r: Result<seq<TaskId>, Error>)
      requires id < |tx.db.tasks|
      modifies tx`db
      ensures var base := |old(tx.db).tasks|;
        match P.AddKids(old(tx.db), id, state, maxOrd, base, deps, 0, tx.now)
        case Err(e) => r == Err(e)
        case Ok(whole) =>
          && r.Ok? && |r.value| == |deps| && (forall k | 0 <= k < |deps| :: r.value[k] == base + k)
          && |whole.tasks| == base + |deps| && tx.db == Bare(whole, base)
          && forall c | base <= c < base + |deps| :: whole.tasks[c].dependsOn == P.BatchIds(deps[c - base], base)
    {
      hide P.AddKids, P.NewKid, P.BatchIds, ChildPath, Bare;
      var base := |tx.db.tasks|;
      var parent := tx.db.tasks[id];
      ghost var start := tx.db;
      ghost var whole := tx.db;  // the same inserts, with the dependencies in place
      var ids: seq<TaskId> := [];
      BareOfNothing(whole);
      for i := 0 to |deps|
        invariant |ids| == i && forall k | 0 <= k < i :: ids[k] == base + k
        invariant |whole.tasks| == base + i && whole.tasks[id] == parent
        invariant tx.db == Bare(whole, base)
        invariant forall c | base <= c < base + i :: whole.tasks[c].dependsOn == P.BatchIds(deps[c - base], base)
        invariant P.AddKids(whole, id, state, maxOrd, base, deps, i, tx.now) == P.AddKids(start, id, state, maxOrd, base, deps, 0, tx.now)
      {
        AddKidsNext(whole, id, state, maxOrd, base, deps, i, tx.now);
        var path :- ChildPath(parent.path, maxOrd + i + 1);
        ids := ids + [|tx.db.tasks|];
        tx.db := tx.db.(tasks := tx.db.tasks + [P.NewKid(parent, id, path, state, base, [], tx.now)]);
        tx.Event(base + i, None, state, Planner, 1, Plain);
        ghost var kid := P.NewKid(parent, id, path, state, base, deps[i], tx.now);
        BareInsert(whole, base, kid);
        whole := InsertTask(whole, kid, Planner);
      }
      AddKidsDone(whole, id, state, maxOrd, base, deps, tx.now);
      r := Ok(ids);
    }

    /** One step of the batch; the bare row differs from the complete one in its dependencies only. */
    static lemma AddKidsNext(db: Db, id: TaskId, state: TaskState, maxOrd: nat, base: TaskId, deps: seq<seq<nat>>, i: nat, now: int)
      requires i < |deps| && id < |db.tasks|
      ensures match ChildPath(db.tasks[id].path, maxOrd + i + 1)
        case Err(e) => P.AddKids(db, id, state, maxOrd, base, deps, i, now) == Err(e)
        case Ok(path) =>
          var kid := P.NewKid(db.tasks[id], id, path, state, base, deps[i], now);
          && P.AddKids(db, id, state, maxOrd, base, deps, i, now)
            == P.AddKids(InsertTask(db, kid, Planner), id, state, maxOrd, base, deps, i + 1, now)
          && kid.dependsOn == P.BatchIds(deps[i], base) && kid.state == state && kid.version == 1
          && kid.(dependsOn := []) == P.NewKid(db.tasks[id], id, path, state, base, [], now)
    {
      assert P.BatchIds([], base) == [];
    }

    static lemma AddKidsDone(db: Db, id: TaskId, state: TaskState, maxOrd: nat, base: TaskId, deps: seq<seq<nat>>, now: int)
      requires id < |db.tasks|
      ensures P.AddKids(db, id, state, maxOrd, base, deps, |deps|, now) == Ok(db)
    {
    }

    static lemma BareOfNothing(db: Db)
      ensures Bare(db, |db.tasks|) == db
    {
      assert Bare(db, |db.tasks|).tasks == db.tasks;
    }

    /** Row `at` gets its dependencies, if it has any. */
    static lemma BareFills(db: Db, at: nat)
      requires at < |db.tasks|
      ensures Bare(db, at).tasks[at] == db.tasks[at].(dependsOn := [])
      ensures Put(Bare(db, at), at, db.tasks[at]) == Bare(db, at + 1)
      ensures db.tasks[at].dependsOn == [] ==> Bare(db, at) == Bare(db, at + 1)
    {
      assert Put(Bare(db, at), at, db.tasks[at]).tasks == Bare(db, at + 1).tasks;
      if db.tasks[at].dependsOn == [] {
        assert Bare(db, at).tasks == Bare(db, at + 1).tasks;
      }
    }

    /** The tables with `dependsOn` still unset from row `base` on. */
    static ghost function Bare(db: Db, base: nat): (bare: Db)
      requires base <= |db.tasks|
      ensures |bare.tasks| == |db.tasks|
    {
      db.(tasks := seq(|db.tasks|, c requires 0 <= c < |db.tasks| =>
        if c < base then db.tasks[c] else db.tasks[c].(dependsOn := [])))
    }

    static lemma BareInsert(db: Db, base: nat, kid: Task)
      requires base <= |db.tasks|
      ensures Bare(InsertTask(db, kid, Planner), base) == InsertTask(Bare(db, base), kid.(dependsOn := []), Planner)
    {
      assert Bare(InsertTask(db, kid, Planner), base).tasks == InsertTask(Bare(db, base), kid.(dependsOn := []), Planner).tasks;
    }

    method MarkLeaf(id: TaskId, expected: nat, key: IdemKey, tokens: nat, checked: bool, now: int) returns (r: Status)
      requires Valid()
      modifies this
      ensures Valid()
      ensures Commits(old(db), P.MarkLeaf(old(db), id, expected, key, tokens, checked, now), db, r)
      ensures Answers(Refusal(old(db), P.MarkLeafOp(id, expected, key, tokens, checked), now), r)
      ensures r.Ok? ==> MarkedLeaf(old(db), db, id, key, tokens, now)
    {
      hide Inv, Refusal, MarkedLeaf;
      SoundTree(db);
      if P.MarkLeaf(db, id, expected, key, tokens, checked, now).Ok? {
        MarkLeafKeeps(db, id, expected, key, tokens, checked, now);
        MarkLeafEnds(db, id, expected, key, tokens, checked, now);
      }
      MarkLeafVerdict(db, id, expected, key, tokens, checked, now);
      var isNew := !IdemExists(db, key);
      :- Need(isNew, AlreadyApplied);
      var tx := new Tx(db, now);
      var t :- tx.Lock(id);
      :- Need(!t.kind.Objective?, Denied);
      :- P.Cas(t, expected, Decomposing);
      :- Need(|Kids(tx.db, id)| == 0, Conflict);
      :- Need(checked, Invalid);
      var policy :- PolicyOf(tx.db, t.campaign);
      tx.AppendAttempt(Attempt(id, Planning, key, None, Execute, tokens));
      var _ :- tx.Transition(id, if policy.Gated(t.Depth()) then AwaitingApproval else Ready, Planner);
      var moved :- tx.Lock(id);
      tx.Update(id, moved.(kind := Leaf));
      db := tx.db;
      return Ok(());
    }

    method PlanClose(id: TaskId, expected: nat, key: IdemKey, tokens: nat, result: P.PlanResult, checked: bool, now: int)
      returns (r: Status)
      requires Valid()
      modifies this
      ensures Valid()
      ensures Commits(old(db), P.PlanClose(old(db), id, expected, key, tokens, result, checked, now), db, r)
      ensures Answers(Refusal(old(db), P.PlanCloseOp(id, expected, key, tokens, result, checked), now), r)
      ensures r.Ok? ==> PlanClosed(old(db), db, id, key, tokens, result, now)
    {
      hide Inv, CampaignTables.Transition, Refusal, PlanClosed;
      SoundTree(db);
      if P.PlanClose(db, id, expected, key, tokens, result, checked, now).Ok? {
        PlanCloseKeeps(db, id, expected, key, tokens, result, checked, now);
        PlanCloseEnds(db, id, expected, key, tokens, result, checked, now);
      }
      PlanCloseVerdict(db, id, expected, key, tokens, result, checked, now);
      var isNew := !IdemExists(db, key);
      :- Need(isNew, AlreadyApplied);
      var tx := new Tx(db, now);
      var t :- tx.Lock(id);
      :- Need(!t.kind.Leaf?, Denied);
      :- P.Cas(t, expected, Decomposing);
      :- Need(checked, Invalid);
      tx.AppendAttempt(Attempt(id, Planning, key, None, P.CloseOutcome(result), tokens));
      var to := Blocked;
      if result.AsksForInfo? {
        to := AwaitingApproval;
      } else if result.Errs? {
        var policy :- PolicyOf(tx.db, t.campaign);
        tx.Update(id, t.(attempts := t.attempts + 1));
        if t.attempts + 1 < policy.maxPlanAttempts {
          to := Ready;
        }
      }
      if to.Blocked? {
        r := tx.BlockPlan(id, t.parent);
      } else {
        r := tx.Transition(id, to, Planner);
      }
      if r.Ok? {
        db := tx.db;
      }
    }

    // ---- (c) claim, heartbeat, reap ----

    method Claim(limit: nat, owner: Owner, leaseSecs: int, busy: set<TaskId>, now: int) returns (r: Status)
      requires Valid()
      modifies this
      ensures Valid()
      ensures Commits(old(db), P.Claim(old(db), limit, owner, leaseSecs, busy, now), db, r)
      ensures Answers(Refusal(old(db), P.ClaimOp(limit, owner, leaseSecs, busy), now), r)
      ensures r.Ok? ==> ClaimTaken(old(db), db, limit, owner, leaseSecs, busy, now)
      ensures r.Ok? && 60 <= leaseSecs <= 86_400 ==> HeldUntil(old(db), db, now + 1000 * leaseSecs)
    {
      hide Inv, Refusal, ClaimTaken, HeldUntil;
      SoundTree(db);
      if P.Claim(db, limit, owner, leaseSecs, busy, now).Ok? {
        ClaimsKeep(db, limit, owner, leaseSecs, busy, now);
        ClaimEnds(db, limit, owner, leaseSecs, busy, now);
        ClaimHolds(db, P.Claim(db, limit, owner, leaseSecs, busy, now).value, limit, owner, leaseSecs, busy, now);
      }
      ClaimVerdict(db, limit, owner, leaseSecs, busy, now);
      if limit == 0 {
        return Ok(());
      }
      var lease := P.ClampLease(leaseSecs);
      var tx := new Tx(db, now);
      var ids := P.Candidates(tx.db, limit, busy);
      for i := 0 to |ids|
        invariant unchanged(this)
        invariant P.ClaimEach(tx.db, ids[i..], i, owner, lease, now) == P.ClaimEach(db, ids, 0, owner, lease, now)
      {
        assert ids[i..][1..] == ids[i + 1..];
        var _ :- tx.Lock(ids[i]);
        var _ :- tx.ClaimRow(ids[i], i, owner, lease);
      }
      db := tx.db;
      return Ok(());
    }

    method Heartbeat(id: TaskId, owner: Owner, leaseSecs: int, now: int) returns (r: Status)
      requires Valid()
      modifies this
      ensures Valid()
      ensures Commits(old(db), P.Heartbeat(old(db), id, owner, leaseSecs, now), db, r)
      ensures id < |old(db).tasks| && old(db).tasks[id].claimedBy != Some(owner) ==> r == Err(LeaseLost)
      ensures Answers(Refusal(old(db), P.HeartbeatOp(id, owner, leaseSecs), now), r)
      ensures r.Ok? ==> Extended(old(db), db, id, owner, leaseSecs, now)
      ensures r.Ok? && 60 <= leaseSecs <= 86_400 ==> id < |db.tasks| && db.tasks[id].leaseUntil == Some(now + 1000 * leaseSecs)
    {
      hide Inv, Refusal, Extended;
      SoundTree(db);
      if P.Heartbeat(db, id, owner, leaseSecs, now).Ok? {
        HeartbeatKeeps(db, id, owner, leaseSecs, now);
        HeartbeatEnds(db, id, owner, leaseSecs, now);
      }
      HeartbeatVerdict(db, id, owner, leaseSecs, now);
      if id < |db.tasks| && db.tasks[id].claimedBy == Some(owner) && db.tasks[id].state.IsLeased() {
        var row := db.tasks[id].(leaseUntil := Some(now + 1000 * P.ClampLease(leaseSecs)), updatedAt := now);
        db := db.(tasks := db.tasks[id := row]);
        return Ok(());
      }
      return Err(LeaseLost);
    }

    method Reap(busy: set<TaskId>, now: int) returns (r: Status)
      requires Valid()
      modifies this
      ensures Valid()
      ensures Commits(old(db), P.Reap(old(db), busy, now), db, r)
      ensures r.Ok? ==> TakesBackExpired(old(db), db, busy, now)
      ensures Answers(Refusal(old(db), P.ReapOp(busy), now), r)
      ensures r.Ok? ==> TakenBack(old(db), db, busy, now)
    {
      hide Inv, TakesBackExpired, Refusal, TakenBack;
      SoundTree(db);
      if P.Reap(db, busy, now).Ok? {
        ReapKeeps(db, busy, now);
        ReapEnds(db, busy, now);
      }
      ReapVerdict(db, busy, now);
      ReapMeans(db, busy, now);
      var tx := new Tx(db, now);
      ghost var before := db;
      var ids := ExpiredIds(busy, now);
      for i := 0 to |ids|
        invariant unchanged(this)
        invariant P.ReapEach(tx.db, ids[i..], now) == P.ReapEach(before, ids, now)
      {
        assert ids[i..][1..] == ids[i + 1..];
        var _ :- tx.ReapRow(ids[i]);
      }
      db := tx.db;
      return Ok(());
    }

    /** The expired rows that nobody has locked, in id order. */
    method ExpiredIds(busy: set<TaskId>, now: int) returns (ids: seq<TaskId>)
      ensures var db := this.db; ids == Select((i: TaskId) => P.Expired(db, i, now) && i !in busy, |db.tasks|)
    {
      var db := this.db;
      ids := Select((i: TaskId) => P.Expired(db, i, now) && i !in busy, |db.tasks|);
    }

    method ReapDecomposing(maxAgeSecs: int, busy: set<TaskId>, now: int) returns (r: Status)
      requires Valid()
      modifies this
      ensures Valid()
      ensures Commits(old(db), P.ReapDecomposing(old(db), maxAgeSecs, busy, now), db, r)
      ensures Answers(Refusal(old(db), P.ReapDecomposingOp(maxAgeSecs, busy), now), r)
      ensures r.Ok? ==> PlansReleased(old(db), db, maxAgeSecs, busy, now)
    {
      hide Inv, P.ReleaseEach, Select, Refusal, PlansReleased;
      SoundTree(db);
      if P.ReapDecomposing(db, maxAgeSecs, busy, now).Ok? {
        ReapDecomposingKeeps(db, maxAgeSecs, busy, now);
        ReapDecomposingEnds(db, maxAgeSecs, busy, now);
      }
      ReapDecomposingVerdict(db, maxAgeSecs, busy, now);
      var bound := P.ClampLease(maxAgeSecs);
      var tx := new Tx(db, now);
      var before := db;
      var ids := Select((i: TaskId) => P.PlanStale(before, i, bound, now) && i !in busy, |before.tasks|);
      for i := 0 to |ids|
        invariant unchanged(this)
        invariant P.ReleaseEach(tx.db, ids[i..], now) == P.ReleaseEach(before, ids, now)
      {
        ReleaseNext(tx.db, ids, i, now);
        var t :- tx.Lock(ids[i]);
        tx.Update(ids[i], t.(state := Ready, version := t.version + 1, updatedAt := now));
        tx.Event(ids[i], Some(Decomposing), Ready, Reaper, t.version + 1, Plain);
      }
      assert ids[|ids|..] == [];
      NoneToRelease(tx.db, now);
      db := tx.db;
      return Ok(());
    }

    static lemma NoneToRelease(db: Db, now: int)
      ensures P.ReleaseEach(db, [], now) == Ok(db)
    {
    }

    static lemma ReleaseNext(db: Db, ids: seq<TaskId>, i: nat, now: int)
      requires i < |ids|
      ensures match Get(db, ids[i])
        case Err(e) => P.ReleaseEach(db, ids[i..], now) == Err(e)
        case Ok(t) =>
          P.ReleaseEach(db, ids[i..], now)
            == P.ReleaseEach(Write(db, ids[i], t.(state := Ready, version := t.version + 1, updatedAt := now), Decomposing, Reaper, Plain),
                             ids[i + 1..], now)
    {
      assert ids[i..][1..] == ids[i + 1..];
    }

    // ---- (d) start, complete, fail, review ----

    method Start(id: TaskId, owner: Owner, now: int) returns (r: Status)
      requires Valid()
      modifies this
      ensures Valid()
      ensures Commits(old(db), P.Start(old(db), id, owner, now), db, r)
      ensures id < |old(db).tasks| && old(db).tasks[id].claimedBy != Some(owner) ==> r == Err(LeaseLost)
      ensures Answers(Refusal(old(db), P.StartOp(id, owner), now), r)
      ensures r.Ok? ==> RowMoves(old(db), db, id, Running, Worker, now) && db.attempts == old(db).attempts
    {
      hide Inv, Refusal, RowMoves;
      SoundTree(db);
      if P.Start(db, id, owner, now).Ok? {
        StartKeeps(db, id, owner, now);
        StartEnds(db, id, owner, now);
      }
      StartVerdict(db, id, owner, now);
      var tx := new Tx(db, now);
      var t :- tx.Lock(id);
      :- Need(t.claimedBy == Some(owner), LeaseLost);
      :- P.RequireState(t, Claimed);
      r := tx.Transition(id, Running, Worker);
      if r.Ok? {
        db := tx.db;
      }
    }

    method Complete(id: TaskId, owner: Owner, checked: bool, now: int) returns (r: Status)
      requires Valid()
      modifies this
      ensures Valid()
      ensures Commits(old(db), P.Complete(old(db), id, owner, checked, now), db, r)
      ensures id < |old(db).tasks| && old(db).tasks[id].claimedBy != Some(owner) ==> r == Err(LeaseLost)
      ensures r.Ok? ==> ClosesOwnClaim(old(db), db, id, owner, Pr)
      ensures Answers(Refusal(old(db), P.CompleteOp(id, owner, checked), now), r)
      ensures r.Ok? ==> RowMoves(old(db), db, id, InReview, Worker, now)
    {
      hide Inv, ClosesOwnClaim, Refusal, RowMoves;
      SoundTree(db);
      if P.Complete(db, id, owner, checked, now).Ok? {
        CompleteKeeps(db, id, owner, checked, now);
        CompleteEnds(db, id, owner, checked, now);
        CompleteMeans(db, id, owner, checked, now);
      }
      CompleteVerdict(db, id, owner, checked, now);
      var tx := new Tx(db, now);
      var t :- tx.Lock(id);
      :- Need(t.claimedBy == Some(owner), LeaseLost);
      :- P.RequireState(t, Running);
      :- Need(checked, Invalid);
      var _ :- tx.Transition(id, InReview, Worker);
      tx.CloseWork(id, Some(owner), Pr);
      db := tx.db;
      return Ok(());
    }

    method Fail(id: TaskId, owner: Owner, timedOut: bool, checked: bool, now: int) returns (r: Status)
      requires Valid()
      modifies this
      ensures Valid()
      ensures Commits(old(db), P.Fail(old(db), id, owner, timedOut, checked, now), db, r)
      ensures id < |old(db).tasks| && old(db).tasks[id].claimedBy != Some(owner) ==> r == Err(LeaseLost)
      ensures r.Ok? ==> ClosesOwnClaim(old(db), db, id, owner, if timedOut then TimedOut else Erred) && NoReadyDependent(db, id)
      ensures Answers(Refusal(old(db), P.FailOp(id, owner, timedOut, checked), now), r)
      ensures r.Ok? ==> FailsThenPass(old(db), db, id, Worker, now)
    {
      hide Inv, ClosesOwnClaim, NoReadyDependent, CampaignTables.BlockDependents, CampaignTables.RollupFrom, Refusal, FailsThenPass;
      SoundTree(db);
      if P.Fail(db, id, owner, timedOut, checked, now).Ok? {
        FailKeeps(db, id, owner, timedOut, checked, now);
        FailEnds(db, id, owner, timedOut, checked, now);
        FailMeans(db, id, owner, timedOut, checked, now);
      }
      FailVerdict(db, id, owner, timedOut, checked, now);
      var tx := new Tx(db, now);
      var t :- tx.Lock(id);
      :- Need(t.claimedBy == Some(owner), LeaseLost);
      :- P.RequireState(t, Running);
      :- Need(checked, Invalid);
      var _ :- tx.Transition(id, Failed, Worker);
      tx.CloseWork(id, Some(owner), if timedOut then TimedOut else Erred);
      var _ :- tx.BlockDependents(id, t.parent);
      r := tx.RollupFrom(t.parent);
      if r.Ok? {
        db := tx.db;
      }
    }

    method ResolveReview(id: TaskId, merged: bool, now: int) returns (r: Status)
      requires Valid()
      modifies this
      ensures Valid()
      ensures Commits(old(db), P.ResolveReview(old(db), id, merged, now), db, r)
      ensures Answers(Refusal(old(db), P.ResolveReviewOp(id, merged), now), r)
      ensures r.Ok? ==> id < |db.tasks| && db.tasks[id].state == if merged then Done else Failed
      ensures r.Ok? && merged ==> MovesThenPass(old(db), db, id, Done, Poller, now)
      ensures r.Ok? && !merged ==> FailsThenPass(old(db), db, id, Poller, now) && NoReadyDependent(db, id)
      ensures r.Ok? ==> db.attempts == old(db).attempts
    {
      hide Inv, Refusal, Allowed, MovesThenPass, FailsThenPass, NoReadyDependent, CampaignTables.BlockDependents, CampaignTables.RollupFrom;
      SoundTree(db);
      if P.ResolveReview(db, id, merged, now).Ok? {
        ResolveReviewKeeps(db, id, merged, now);
        ReviewMeans(db, id, merged, now);
      }
      ResolveVerdict(db, id, merged, now);
      var tx := new Tx(db, now);
      var t :- tx.Lock(id);
      :- P.RequireState(t, InReview);
      var _ :- tx.Transition(id, if merged then Done else Failed, Poller);
      if !merged {
        var _ :- tx.BlockDependents(id, t.parent);
      }
      r := tx.RollupFrom(t.parent);
      if r.Ok? {
        db := tx.db;
      }
    }

    method ReviewNote(id: TaskId, awaiting: bool, now: int) returns (r: Status)
      requires Valid()
      modifies this
      ensures Valid()
      ensures Commits(old(db), P.ReviewNote(old(db), id, awaiting), db, r)
      ensures Answers(Refusal(old(db), P.ReviewNoteOp(id, awaiting), now), r)
      ensures r.Ok? ==> Noted(old(db), db, id, awaiting)
    {
      hide Inv, Refusal, Noted;
      SoundTree(db);
      if P.ReviewNote(db, id, awaiting).Ok? {
        ReviewNoteKeeps(db, id, awaiting);
        ReviewNoteEnds(db, id, awaiting);
      }
      NoteVerdict(db, id, awaiting, now);
      var tx := new Tx(db, now);
      var t :- tx.Lock(id);
      :- P.RequireState(t, InReview);
      if !(awaiting && HasAwaitingMark(tx.db, id)) {
        tx.Event(id, Some(InReview), InReview, Poller, t.version, if awaiting then AwaitingPrApproval else PollError);
        assert tx.db.tasks == db.tasks[id := t];
      }
      db := tx.db;
      return Ok(());
    }

    // ---- (e) approve, answer, retry, policy ----

    method Approve(id: TaskId, expected: nat, actor: ActorClass, now: int) returns (r: Status)
      requires Valid()
      modifies this
      ensures Valid()
      ensures Commits(old(db), P.Approve(old(db), id, expected, actor, now), db, r)
      ensures Answers(Refusal(old(db), P.ApproveOp(id, expected, actor), now), r)
      ensures r.Ok? ==> Approved(old(db), db, id, now)
    {
      hide Inv, Refusal, Approved;
      SoundTree(db);
      if P.Approve(db, id, expected, actor, now).Ok? {
        ApproveKeeps(db, id, expected, actor, now);
        ApproveEnds(db, id, expected, actor, now);
      }
      ApproveVerdict(db, id, expected, actor, now);
      var byUser := actor.User?;
      :- Need(byUser, Denied);
      var tx := new Tx(db, now);
      var t :- tx.Lock(id);
      if t.state.InReview? {
        :- P.Cas(t, expected, InReview);
        tx.Event(id, Some(InReview), InReview, User, t.version, PrApproved);
        assert tx.db.tasks == db.tasks[id := t];
      } else {
        :- P.Cas(t, expected, AwaitingApproval);
        var _ :- tx.Transition(id, Ready, User);
      }
      db := tx.db;
      return Ok(());
    }

    method ApproveChildren(parent: TaskId, actor: ActorClass, now: int) returns (r: Status)
      requires Valid()
      modifies this
      ensures Valid()
      ensures Commits(old(db), P.ApproveChildren(old(db), parent, actor, now), db, r)
      ensures Answers(Refusal(old(db), P.ApproveChildrenOp(parent, actor), now), r)
      ensures r.Ok? ==> ChildrenReleased(old(db), db, parent, now)
    {
      hide Inv, Refusal, ChildrenReleased;
      SoundTree(db);
      if P.ApproveChildren(db, parent, actor, now).Ok? {
        ApproveChildrenKeeps(db, parent, actor, now);
        ApproveChildrenEnds(db, parent, actor, now);
      }
      ApproveChildrenVerdict(db, parent, actor, now);
      var byUser := actor.User?;
      :- Need(byUser, Denied);
      var tx := new Tx(db, now);
      var _ :- tx.Lock(parent);
      var kids := Kids(tx.db, parent);
      for i := 0 to |kids|
        invariant unchanged(this)
        invariant P.ApproveEach(tx.db, kids[i..], now) == P.ApproveEach(db, kids, now)
      {
        assert kids[i..][1..] == kids[i + 1..];
        var c :- tx.Lock(kids[i]);
        if c.state.AwaitingApproval? {
          var _ :- tx.Transition(kids[i], Ready, User);
        }
      }
      db := tx.db;
      return Ok(());
    }

    method Answer(id: TaskId, expected: nat, actor: ActorClass, checked: bool, now: int) returns (r: Status)
      requires Valid()
      modifies this
      ensures Valid()
      ensures Commits(old(db), P.Answer(old(db), id, expected, actor, checked, now), db, r)
      ensures Answers(Refusal(old(db), P.AnswerOp(id, expected, actor, checked), now), r)
      ensures r.Ok? ==> RowMoves(old(db), db, id, Ready, User, now) && db.attempts == old(db).attempts
    {
      hide Inv, Refusal, RowMoves;
      SoundTree(db);
      if P.Answer(db, id, expected, actor, checked, now).Ok? {
        AnswerKeeps(db, id, expected, actor, checked, now);
        AnswerEnds(db, id, expected, actor, checked, now);
      }
      AnswerVerdict(db, id, expected, actor, checked, now);
      var byUser := actor.User?;
      :- Need(byUser, Denied);
      var tx := new Tx(db, now);
      var t :- tx.Lock(id);
      :- P.Cas(t, expected, AwaitingApproval);
      :- Need(checked, Invalid);
      r := tx.Transition(id, Ready, User);
      if r.Ok? {
        db := tx.db;
      }
    }

    method Retry(id: TaskId, actor: ActorClass, now: int) returns (r: Status)
      requires Valid()
      modifies this
      ensures Valid()
      ensures Commits(old(db), P.Retry(old(db), id, actor, now), db, r)
      ensures Answers(Refusal(old(db), P.RetryOp(id, actor), now), r)
      ensures r.Ok? ==> MovesThenPass(old(db), db, id, Ready, User, now) && db.attempts == old(db).attempts
    {
      hide Inv, Refusal, MovesThenPass;
      SoundTree(db);
      if P.Retry(db, id, actor, now).Ok? {
        RetryKeeps(db, id, actor, now);
        RetryEnds(db, id, actor, now);
      }
      RetryVerdict(db, id, actor, now);
      var byUser := actor.User?;
      :- Need(byUser, Denied);
      var tx := new Tx(db, now);
      var t :- tx.Lock(id);
      :- Need(t.state.Failed? || t.state.Blocked?, Conflict);
      var _ :- tx.Transition(id, Ready, User);
      r := tx.RollupFrom(t.parent);
      if r.Ok? {
        db := tx.db;
      }
    }

    method UpdatePolicy(id: TaskId, policy: Policy, actor: ActorClass, now: int) returns (r: Status)
      requires Valid()
      modifies this
      ensures Valid()
      ensures Commits(old(db), P.UpdatePolicy(old(db), id, policy, actor, now), db, r)
      ensures Answers(Refusal(old(db), P.UpdatePolicyOp(id, policy, actor), now), r)
      ensures r.Ok? ==> PolicySet(old(db), db, id, policy, now)
    {
      hide Inv, Refusal, PolicySet;
      SoundTree(db);
      if P.UpdatePolicy(db, id, policy, actor, now).Ok? {
        UpdatePolicyKeeps(db, id, policy, actor, now);
        UpdatePolicyEnds(db, id, policy, actor, now);
      }
      UpdatePolicyVerdict(db, id, policy, actor, now);
      var byUser := actor.User?;
      :- Need(byUser, Denied);
      :- Need(policy.Valid(), Invalid);
      var tx := new Tx(db, now);
      var t :- tx.Lock(id);
      :- Need(t.Depth() == 0, Invalid);
      tx.Update(id, t.(policy := Some(policy), version := t.version + 1, updatedAt := now));
      tx.Event(id, Some(t.state), t.state, User, t.version + 1, PolicyUpdated);
      db := tx.db;
      return Ok(());
    }

    // ---- (f) cancel, (g) replan ----

    method Cancel(id: TaskId, actor: ActorClass, now: int) returns (r: Status)
      requires Valid()
      modifies this
      ensures Valid()
      ensures Commits(old(db), P.Cancel(old(db), id, actor, now), db, r)
      ensures r.Ok? ==> SubtreeEnded(old(db), db, id)
      ensures Answers(Refusal(old(db), P.CancelOp(id, actor), now), r)
      ensures r.Ok? ==> CancelledThenPass(old(db), db, id, now)
    {
      hide Inv, SubtreeEnded, P.CancelEach, Subtree, Refusal, CancelledThenPass;
      SoundTree(db);
      if P.Cancel(db, id, actor, now).Ok? {
        CancelKeeps(db, id, actor, now);
        CancelEnds(db, id, actor, now);
      }
      CancelVerdict(db, id, actor, now);
      CancelMeans(db, id, actor, now);
      var byUser := actor.User?;
      :- Need(byUser, Denied);
      var tx := new Tx(db, now);
      var t :- tx.Lock(id);
      :- Need(!t.state.IsTerminal(), Conflict);
      var _ :- tx.CancelEach(Subtree(tx.db, id));
      r := tx.RollupFrom(t.parent);
      if r.Ok? {
        db := tx.db;
      }
    }

    method Replan(id: TaskId, actor: ActorClass, now: int) returns (r: Status)
      requires Valid()
      modifies this
      ensures Valid()
      ensures Commits(old(db), P.Replan(old(db), id, actor, now), db, r)
      ensures r.Ok? ==> PlannedAfresh(old(db), db, id)
      ensures Answers(Refusal(old(db), P.ReplanOp(id, actor), now), r)
      ensures r.Ok? ==> PlannedOver(old(db), db, id, now)
    {
      hide Inv, PlannedAfresh, P.SupersedeEach, Subtree, CampaignTables.Transition, Refusal, PlannedOver;
      SoundTree(db);
      if P.Replan(db, id, actor, now).Ok? {
        ReplanKeeps(db, id, actor, now);
        ReplanEnds(db, id, actor, now);
      }
      ReplanVerdict(db, id, actor, now);
      ReplanMeans(db, id, actor, now);
      var byUser := actor.User?;
      :- Need(byUser, Denied);
      var tx := new Tx(db, now);
      var t :- tx.Lock(id);
      :- Need(!t.kind.Leaf?, Denied);
      :- Need(t.state.Decomposed? || t.state.Blocked?, Conflict);
      var _ :- tx.SupersedeEach(id, Subtree(tx.db, id));
      var _ :- tx.Transition(id, Decomposing, User);
      var moved :- tx.Lock(id);
      tx.Update(id, moved.(attempts := 0));
      db := tx.db;
      return Ok(());
    }
  }
}
