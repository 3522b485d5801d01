/**
 * What the single calls add up to: the tokens that a campaign has spent are those that its planning calls
 * reported, and a lease lasts as long as it was asked for.
 */
module CampaignLaws {
  import opened Outcomes
  import opened Collections
  import opened CampaignRules
  import opened CampaignTables
  import opened CampaignProtocols
  import opened CampaignInvariants
  import opened CampaignSafety
  import opened CampaignEffects
  import opened CampaignRuns
  import opened CampaignRollup
  import opened CampaignPass
  import opened CampaignEndings
  import opened CampaignSweeps

  // ---- tokens ----

  /** A call that records a plan, with the tokens that it cost. */
  predicate RecordsPlan(op: Op) {
    op.DecomposeOp? || op.MarkLeafOp? || op.PlanCloseOp?
  }

  /** The tokens that a call reports for a campaign, if it commits. */
  function Reported(db: Db, op: Op, campaign: TaskId): nat {
    if RecordsPlan(op) && op.task < |db.tasks| && db.tasks[op.task].campaign == campaign then op.tokens else 0
  }

  ghost predicate AttemptsHaveRows(db: Db) {
    forall a | 0 <= a < |db.attempts| :: db.attempts[a].task < |db.tasks|
  }

  /** A call that records a plan appends one planning attempt; any other appends work attempts only. */
  ghost predicate Appends(db: Db, op: Op, after: seq<Attempt>) {
    && |db.attempts| <= |after|
    && if RecordsPlan(op) then
         && op.task < |db.tasks| && |after| == |db.attempts| + 1
         && after[|db.attempts|].task == op.task && after[|db.attempts|].kind.Planning?
         && after[|db.attempts|].tokens == op.tokens
       else forall a | |db.attempts| <= a < |after| :: after[a].kind.Work? && after[a].task < |db.tasks|
  }

  lemma {:induction false} ClaimsAreWork(tasks: seq<Task>, ids: seq<TaskId>, position: nat, owner: Owner, now: int)
    requires AreRows(tasks, ids)
    ensures forall a | 0 <= a < |ClaimAttempts(tasks, ids, position, owner, now)| ::
      var c := ClaimAttempts(tasks, ids, position, owner, now)[a]; c.kind.Work? && c.task < |tasks|
  {
    if |ids| > 0 {
      ClaimsAreWork(tasks, ids[1..], position + 1, owner, now);
    }
  }

  lemma ClaimAppends(db: Db, op: Op, now: int)
    requires op.ClaimOp? && Rooted(db) && Apply(db, op, now).Ok?
    ensures Appends(db, op, Apply(db, op, now).value.attempts)
  {
    hide Claim, FirstOfQueue;
    ClaimEnds(db, op.limit, op.owner, op.leaseSecs, op.busy, now);
    var db' := Apply(db, op, now).value;
    var ids :| FirstOfQueue(db, op.limit, op.busy, ids) && LeasedTo(db, db', ids, op.owner, op.leaseSecs, now);
    ClaimsAreWork(db.tasks, ids, 0, op.owner, now);
  }

  lemma PlansAppend(db: Db, op: Op, now: int)
    requires RecordsPlan(op) && Inv(db) && Rooted(db) && Apply(db, op, now).Ok?
    ensures Appends(db, op, Apply(db, op, now).value.attempts)
  {
    hide Inv, Decompose, MarkLeaf, PlanClose, Becomes, PassedAbove, EventsThenPass;
    match op
    case DecomposeOp(id, expected, key, tokens, deps, checked) => DecomposeEnds(db, id, expected, key, tokens, deps, checked, now);
    case MarkLeafOp(id, expected, key, tokens, checked) => MarkLeafEnds(db, id, expected, key, tokens, checked, now);
    case PlanCloseOp(id, expected, key, tokens, result, checked) =>
      PlanCloseEnds(db, id, expected, key, tokens, result, checked, now);
  }

  lemma SweepsAppend(db: Db, op: Op, now: int)
    requires op.ReapOp? || op.ReapDecomposingOp? || op.ApproveChildrenOp? || op.CancelOp? || op.ReplanOp?
    requires Inv(db) && Rooted(db) && Apply(db, op, now).Ok?
    ensures |Apply(db, op, now).value.attempts| == |db.attempts|
  {
    hide Inv, Reap, ReapDecomposing, ApproveChildren, Cancel, Replan, Swept, Named, Becomes, PassedAbove, EventsThenPass;
    match op
    case ReapOp(busy) => ReapEnds(db, busy, now);
    case ReapDecomposingOp(maxAgeSecs, busy) => ReapDecomposingEnds(db, maxAgeSecs, busy, now);
    case ApproveChildrenOp(id, actor) => ApproveChildrenEnds(db, id, actor, now);
    case CancelOp(id, actor) => CancelEnds(db, id, actor, now);
    case ReplanOp(id, actor) => ReplanEnds(db, id, actor, now);
  }

  lemma LeafAppends(db: Db, op: Op, now: int)
    requires op.StartOp? || op.CompleteOp? || op.FailOp? || op.ResolveReviewOp? || op.ReviewNoteOp?
    requires Inv(db) && Rooted(db) && Apply(db, op, now).Ok?
    ensures |Apply(db, op, now).value.attempts| == |db.attempts|
  {
    hide Inv, Start, Complete, Fail, ResolveReview, ReviewNote, FailsThenPass, MovesThenPass, RowMoves, CloseAttempts;
    match op
    case StartOp(id, owner) => StartEnds(db, id, owner, now);
    case CompleteOp(id, owner, checked) => CompleteAttempts(db, id, owner, checked, now);
    case FailOp(id, owner, timedOut, checked) => FailAttempts(db, id, owner, timedOut, checked, now);
    case ResolveReviewOp(id, merged) => if merged { MergeEnds(db, id, now); } else { RejectionEnds(db, id, now); }
    case ReviewNoteOp(id, awaiting) => ReviewNoteEnds(db, id, awaiting);
  }

  lemma RestAppends(db: Db, op: Op, now: int)
    requires op.CreateOp? || op.PlanStartOp? || op.HeartbeatOp? || op.ApproveOp? || op.AnswerOp? || op.RetryOp? || op.UpdatePolicyOp?
    requires Rooted(db) && Apply(db, op, now).Ok?
    ensures |Apply(db, op, now).value.attempts| == |db.attempts|
  {
    hide Create, PlanStart, Heartbeat, Approve, Answer, Retry, UpdatePolicy, MovesThenPass, RowMoves, PlansSpent;
    match op
    case CreateOp(actor, draft, policy, checked) => CreateEnds(db, actor, draft, policy, checked, now);
    case PlanStartOp(id) => PlanStartEnds(db, id, now);
    case HeartbeatOp(id, owner, leaseSecs) => HeartbeatEnds(db, id, owner, leaseSecs, now);
    case ApproveOp(id, expected, actor) => ApproveEnds(db, id, expected, actor, now);
    case AnswerOp(id, expected, actor, checked) => AnswerEnds(db, id, expected, actor, checked, now);
    case RetryOp(id, actor) => RetryEnds(db, id, actor, now);
    case UpdatePolicyOp(id, policy, actor) => UpdatePolicyEnds(db, id, policy, actor, now);
  }

  lemma EveryCallAppends(db: Db, op: Op, now: int)
    requires Inv(db) && Rooted(db) && Apply(db, op, now).Ok?
    ensures Appends(db, op, Apply(db, op, now).value.attempts)
  {
    hide Inv, Apply;
    if RecordsPlan(op) {
      PlansAppend(db, op, now);
    } else if op.ClaimOp? {
      ClaimAppends(db, op, now);
    } else if op.ReapOp? || op.ReapDecomposingOp? || op.ApproveChildrenOp? || op.CancelOp? || op.ReplanOp? {
      SweepsAppend(db, op, now);
    } else if op.StartOp? || op.CompleteOp? || op.FailOp? || op.ResolveReviewOp? || op.ReviewNoteOp? {
      LeafAppends(db, op, now);
    } else {
      RestAppends(db, op, now);
    }
  }

  /** What the sum reads of an attempt and of its row has not changed. */
  ghost predicate SameCosts(db: Db, db': Db) {
    && |db.tasks| <= |db'.tasks| && |db.attempts| <= |db'.attempts|
    && (forall i: TaskId | i < |db.tasks| :: db'.tasks[i].campaign == db.tasks[i].campaign)
    && forall a | 0 <= a < |db.attempts| ::
      db'.attempts[a].task == db.attempts[a].task && db'.attempts[a].kind == db.attempts[a].kind
      && db'.attempts[a].tokens == db.attempts[a].tokens
  }

  lemma {:induction false} TokensFrame(db: Db, db': Db, campaign: TaskId, n: nat)
    requires SameCosts(db, db') && AttemptsHaveRows(db) && n <= |db.attempts|
    ensures PlanTokens(db', campaign, n) == PlanTokens(db, campaign, n)
  {
    if n > 0 {
      TokensFrame(db, db', campaign, n - 1);
    }
  }

  lemma {:induction false} WorkCostsNothing(db: Db, campaign: TaskId, from: nat, n: nat)
    requires from <= n <= |db.attempts| && forall a | from <= a < n :: db.attempts[a].kind.Work?
    ensures PlanTokens(db, campaign, n) == PlanTokens(db, campaign, from)
  {
    if from < n {
      WorkCostsNothing(db, campaign, from, n - 1);
    }
  }

  lemma EffectsKeepCosts(db: Db, op: Op, db': Db)
    requires Effects(db, op, db')
    ensures SameCosts(db, db')
  {
    forall i: TaskId | i < |db.tasks|
      ensures db'.tasks[i].campaign == db.tasks[i].campaign
    {
      assert RowEffect(db, op, i, db'.tasks[i]);
    }
  }

  /** A committed call adds to a campaign's spending exactly what it reports. */
  lemma TokensAreCounted(db: Db, op: Op, now: int, campaign: TaskId)
    requires Inv(db) && Rooted(db) && AttemptsHaveRows(db) && Apply(db, op, now).Ok?
    ensures var db' := Apply(db, op, now).value;
      && AttemptsHaveRows(db')
      && PlanTokens(db', campaign, |db'.attempts|) == PlanTokens(db, campaign, |db.attempts|) + Reported(db, op, campaign)
  {
    hide Inv, Apply, Effects;
    var db' := Apply(db, op, now).value;
    ApplyEffects(db, op, now);
    EffectsKeepCosts(db, op, db');
    EveryCallAppends(db, op, now);
    TokensFrame(db, db', campaign, |db.attempts|);
    if !RecordsPlan(op) {
      WorkCostsNothing(db', campaign, |db.attempts|, |db'.attempts|);
    }
  }

  /** What the committed calls of a run report for a campaign, in all. */
  ghost function ReportedOver(db: Db, steps: seq<Step>, campaign: TaskId): nat
    requires Inv(db)
    decreases |steps|
  {
    if |steps| == 0 then 0
    else
      (if Committed(db, steps[0]) then Reported(db, steps[0].op, campaign) else 0)
      + ReportedOver(After(db, steps[0]), steps[1..], campaign)
  }

  /** After any run, what a campaign has spent is what the run's planning calls reported for it. */
  lemma {:induction false} SpendingIsReported(db: Db, steps: seq<Step>, campaign: TaskId)
    requires Inv(db) && AttemptsHaveRows(db)
    ensures var db' := Run(db, steps);
      && AttemptsHaveRows(db')
      && PlanTokens(db', campaign, |db'.attempts|) == PlanTokens(db, campaign, |db.attempts|) + ReportedOver(db, steps, campaign)
    ensures PlanTokens(EMPTY, campaign, 0) == 0 && AttemptsHaveRows(EMPTY)
    decreases |steps|
  {
    hide Inv, Apply, PlanTokens;
    NothingIsSpent(campaign);
    if |steps| > 0 {
      SoundTree(db);
      if Committed(db, steps[0]) {
        TokensAreCounted(db, steps[0].op, steps[0].now, campaign);
      }
      SpendingIsReported(After(db, steps[0]), steps[1..], campaign);
    }
  }

  lemma NothingIsSpent(campaign: TaskId)
    ensures PlanTokens(EMPTY, campaign, 0) == 0
  {
  }

  // ---- leases ----

  /** No reap takes a row back before its lease is over. */
  lemma LeaseLasts(db: Db, busy: set<TaskId>, id: TaskId, now: int)
    requires id < |db.tasks| && Reap(db, busy, now).Ok?
    requires db.tasks[id].leaseUntil.Some? ==> now <= db.tasks[id].leaseUntil.value
    ensures id < |Reap(db, busy, now).value.tasks| && Reap(db, busy, now).value.tasks[id] == db.tasks[id]
  {
    hide Reap, Named, WorkLost;
    ReapEnds(db, busy, now);
    var db' := Reap(db, busy, now).value;
    var ids :| Swept(db, db', ids, Ready, Reaper, now)
      && forall i: TaskId :: i in ids <==> i < |db.tasks| && LeaseOver(db.tasks[i], now) && i !in busy;
    assert SweptRow(db.tasks[id], db'.tasks[id], id in ids, Ready, now);
  }

  /** A lease of `secs` seconds, a minute to a day, holds off every reap for that long after the claim. */
  lemma ClaimHoldsOffReaps(db: Db, limit: nat, owner: Owner, secs: int, busy: set<TaskId>, now: int, id: TaskId,
                           busy': set<TaskId>, later: int)
    requires Claim(db, limit, owner, secs, busy, now).Ok? && 60 <= secs <= 86_400
    requires var db1 := Claim(db, limit, owner, secs, busy, now).value;
      id < |db.tasks| == |db1.tasks| && db1.tasks[id] != db.tasks[id] && Reap(db1, busy', later).Ok?
    requires later <= now + 1000 * secs
    ensures var db1 := Claim(db, limit, owner, secs, busy, now).value;
      && db1.tasks[id].claimedBy == Some(owner) && db1.tasks[id].leaseUntil == Some(now + 1000 * secs)
      && id < |Reap(db1, busy', later).value.tasks| && Reap(db1, busy', later).value.tasks[id] == db1.tasks[id]
  {
    hide Claim, Reap, FirstOfQueue;
    ClaimEnds(db, limit, owner, secs, busy, now);
    LeaseLasts(Claim(db, limit, owner, secs, busy, now).value, busy', id, later);
  }

  /** And a heartbeat holds them off anew, from when it was sent. */
  lemma HeartbeatHoldsOffReaps(db: Db, id: TaskId, owner: Owner, secs: int, now: int, busy: set<TaskId>, later: int)
    requires Heartbeat(db, id, owner, secs, now).Ok? && 60 <= secs <= 86_400
    requires Reap(Heartbeat(db, id, owner, secs, now).value, busy, later).Ok? && later <= now + 1000 * secs
    ensures var db1 := Heartbeat(db, id, owner, secs, now).value;
      && id < |db1.tasks| && db1.tasks[id].claimedBy == Some(owner) && db1.tasks[id].leaseUntil == Some(now + 1000 * secs)
      && id < |Reap(db1, busy, later).value.tasks| && Reap(db1, busy, later).value.tasks[id] == db1.tasks[id]
  {
    hide Heartbeat, Reap;
    HeartbeatEnds(db, id, owner, secs, now);
    LeaseLasts(Heartbeat(db, id, owner, secs, now).value, busy, id, later);
  }
}
