/**
 * The upward rollup: stopping at the first unchanged ancestor is as good as a full pass, and the exact
 * protocol calls after which some node is not where the rollup rule would put it.
 *
 * A node is settled when the rule, given its state and its children's, proposes no change. First the pass
 * itself: it settles the whole chain above the row that changed. Then the protocols in four groups: those
 * that move nothing the rule can see, those that end in a rollup, the two that rewrite a subtree, and the
 * decomposition. `Disturbs` names the calls that may leave a node unsettled, and `RollupIsExact` says that
 * these do and no other does.
 */
module CampaignRollup {
  import opened Outcomes
  import opened Collections
  import opened CampaignRules
  import opened CampaignTables
  import opened CampaignProtocols
  import opened CampaignInvariants
  import opened CampaignSafety
  import opened CampaignEffects
  import opened CampaignRuns

  /** The node is at a fixpoint of the rollup over its children. */
  predicate Settled(db: Db, p: TaskId)
    requires p < |db.tasks|
  {
    Rollup(db.tasks[p].state, KidStates(db, p)).None?
  }

  ghost predicate AllSettled(db: Db) {
    forall p: TaskId | p < |db.tasks| :: Settled(db, p)
  }

  /** `p` and every ancestor of it are settled. */
  ghost predicate ChainSettled(db: Db, p: Option<TaskId>)
    requires Rooted(db) && (p.Some? ==> p.value < |db.tasks|)
    decreases if p.Some? then p.value + 1 else 0
  {
    p.None? || (Settled(db, p.value) && ChainSettled(db, db.tasks[p.value].parent))
  }

  predicate IsKid(db: Db, p: TaskId, c: TaskId) {
    c < |db.tasks| && db.tasks[c].parent == Some(p)
  }

  /** The rollup reads the children's states, whatever their order. */
  lemma KidStatesAreKids(db: Db, p: TaskId)
    ensures forall s :: s in KidStates(db, p) <==> exists c: TaskId :: IsKid(db, p, c) && db.tasks[c].state == s
  {
    var kids := Kids(db, p);
    forall s
      ensures s in KidStates(db, p) <==> exists c: TaskId :: IsKid(db, p, c) && db.tasks[c].state == s
    {
      if s in KidStates(db, p) {
        var k :| 0 <= k < |kids| && KidStates(db, p)[k] == s;
        assert IsKid(db, p, kids[k]);
      }
      if exists c: TaskId :: IsKid(db, p, c) && db.tasks[c].state == s {
        var c: TaskId :| IsKid(db, p, c) && db.tasks[c].state == s;
        KidIsListed(db.tasks, c, |db.tasks|);
        var k :| 0 <= k < |kids| && kids[k] == c;
        assert KidStates(db, p)[k] == s;
      }
    }
  }

  /** Live, and neither done nor stuck: the rollup cannot tell these child states apart. */
  predicate Moving(s: TaskState) {
    s.IsLive() && !s.Done? && !s.IsStuck()
  }

  predicate Alike(s: TaskState, s': TaskState) {
    s == s' || (Moving(s) && Moving(s'))
  }

  predicate Inner(s: TaskState) {
    s.Decomposed? || s.Blocked?
  }

  ghost predicate CoveredBy(a: seq<TaskState>, b: seq<TaskState>) {
    forall s | s in a :: exists s' | s' in b :: Alike(s, s')
  }

  lemma CoveredFlags(a: seq<TaskState>, b: seq<TaskState>)
    requires CoveredBy(a, b)
    ensures AnyLive(a) ==> AnyLive(b)
    ensures AnyStuck(a) ==> AnyStuck(b)
    ensures AllLiveDone(b) ==> AllLiveDone(a)
    ensures Cancelled in a ==> Cancelled in b
  {
    CoveredLive(a, b);
    if AnyStuck(a) {
      var s :| s in a && s.IsStuck();
      var s' :| s' in b && Alike(s, s');
    }
    if !AllLiveDone(a) {
      var s :| s in a && s.IsLive() && !s.Done?;
      var s' :| s' in b && Alike(s, s');
    }
  }

  lemma CoveredLive(a: seq<TaskState>, b: seq<TaskState>)
    requires CoveredBy(a, b)
    ensures AnyLive(a) ==> AnyLive(b)
    ensures Cancelled in a ==> Cancelled in b
  {
    if AnyLive(a) {
      var s :| s in a && s.IsLive();
      var s' :| s' in b && Alike(s, s');
    }
  }

  lemma FlagsDecide(parent: TaskState, a: seq<TaskState>, b: seq<TaskState>)
    requires AnyLive(a) == AnyLive(b) && AnyStuck(a) == AnyStuck(b) && AllLiveDone(a) == AllLiveDone(b)
    requires Cancelled in a <==> Cancelled in b
    ensures Rollup(parent, a) == Rollup(parent, b)
  {
  }

  /** `db'` shows the rollup at least what `db` shows it. */
  lemma AlikeFlags(db: Db, db': Db, p: TaskId)
    requires |db.tasks| == |db'.tasks|
    requires forall c: TaskId | c < |db.tasks| :: db.tasks[c].parent == db'.tasks[c].parent
    requires forall c: TaskId | IsKid(db, p, c) :: Alike(db.tasks[c].state, db'.tasks[c].state)
    ensures var a, b := KidStates(db, p), KidStates(db', p);
      && (AnyLive(a) ==> AnyLive(b)) && (AnyStuck(a) ==> AnyStuck(b))
      && (AllLiveDone(b) ==> AllLiveDone(a)) && (Cancelled in a ==> Cancelled in b)
  {
    KidStatesAreKids(db, p);
    KidStatesAreKids(db', p);
    var a, b := KidStates(db, p), KidStates(db', p);
    forall s | s in a
      ensures exists s' | s' in b :: Alike(s, s')
    {
      var c: TaskId :| IsKid(db, p, c) && db.tasks[c].state == s;
      assert IsKid(db', p, c) && db'.tasks[c].state in b;
    }
    CoveredFlags(a, b);
  }

  /** `p`'s children look the same to the rollup. */
  lemma AlikeKids(db: Db, db': Db, p: TaskId)
    requires |db.tasks| == |db'.tasks|
    requires forall c: TaskId | c < |db.tasks| :: db.tasks[c].parent == db'.tasks[c].parent
    requires forall c: TaskId | IsKid(db, p, c) :: Alike(db.tasks[c].state, db'.tasks[c].state)
    ensures forall s :: Rollup(s, KidStates(db, p)) == Rollup(s, KidStates(db', p))
  {
    AlikeFlags(db, db', p);
    AlikeFlags(db', db, p);
    forall s
      ensures Rollup(s, KidStates(db, p)) == Rollup(s, KidStates(db', p))
    {
      FlagsDecide(s, KidStates(db, p), KidStates(db', p));
    }
  }

  // ---- the pass itself ----

  lemma ChainFrame(db: Db, db': Db, p: Option<TaskId>, bound: TaskId)
    requires Rooted(db) && Rooted(db') && SameShape(db.tasks, db'.tasks)
    requires p.Some? ==> p.value < bound && p.value < |db.tasks|
    requires forall q: TaskId | q < bound && q < |db.tasks| :: Settled(db, q) ==> Settled(db', q)
    requires ChainSettled(db, p)
    ensures ChainSettled(db', p)
    decreases if p.Some? then p.value + 1 else 0
  {
    if p.Some? {
      ChainFrame(db, db', db.tasks[p.value].parent, bound);
    }
  }

  /** `q` is `p` or one of its ancestors. */
  predicate OnChain(db: Db, p: Option<TaskId>, q: TaskId)
    requires Rooted(db)
    decreases if p.Some? then p.value + 1 else 0
  {
    p.Some? && p.value < |db.tasks| && (p.value == q || OnChain(db, db.tasks[p.value].parent, q))
  }

  lemma {:induction false} OnChainFrame(db: Db, db': Db, p: Option<TaskId>, q: TaskId)
    requires Rooted(db) && Rooted(db') && |db.tasks| == |db'.tasks|
    requires forall i: TaskId | i < |db.tasks| :: db'.tasks[i].parent == db.tasks[i].parent
    ensures OnChain(db, p, q) == OnChain(db', p, q)
    decreases if p.Some? then p.value + 1 else 0
  {
    if p.Some? && p.value < |db.tasks| {
      OnChainFrame(db, db', db.tasks[p.value].parent, q);
    }
  }

  /** The pass writes the node it starts at and its ancestors, and no other row. */
  lemma {:induction false} RollupStaysOnChain(db: Db, parent: Option<TaskId>, now: int, q: TaskId)
    requires Rooted(db) && (parent.Some? ==> parent.value < |db.tasks|)
    requires RollupFrom(db, parent, now).Ok? && q < |db.tasks| && !OnChain(db, parent, q)
    ensures RollupFrom(db, parent, now).value.tasks[q] == db.tasks[q]
    decreases if parent.Some? then parent.value + 1 else 0
  {
    if parent.Some? {
      var next := Rollup(db.tasks[parent.value].state, KidStates(db, parent.value));
      if next.Some? {
        var db1 := Transition(db, parent.value, next.value, RollupPass, now).value;
        OnChainFrame(db, db1, db.tasks[parent.value].parent, q);
        RollupStaysOnChain(db1, db.tasks[parent.value].parent, now, q);
      }
    }
  }

  /**
   * If every ancestor above `parent` was settled, the pass ends with `parent` and all of them settled,
   * and every node that was settled still is.
   */
  lemma {:induction false} RollupSettles(db: Db, parent: Option<TaskId>, now: int)
    requires Inv(db)
    requires parent.Some? ==> parent.value < |db.tasks| && !db.tasks[parent.value].kind.Leaf?
    requires parent.Some? ==> ChainSettled(db, db.tasks[parent.value].parent)
    ensures RollupFrom(db, parent, now).Ok?
    ensures var db' := RollupFrom(db, parent, now).value;
      && SameShape(db.tasks, db'.tasks)
      && (forall q: TaskId | q < |db.tasks| && (Settled(db, q) || parent == Some(q)) :: Settled(db', q))
    decreases if parent.Some? then parent.value + 1 else 0
  {
    RollupKeeps(db, parent, now);
    if parent.Some? {
      var p := db.tasks[parent.value];
      var next := Rollup(p.state, KidStates(db, parent.value));
      if next.Some? {
        var db1 := RollupStep(db, parent.value, now);
        hide Inv, ChainSettled, KidStates, Rollup;
        RollupSettles(db1, p.parent, now);
      }
    }
  }

  /** One step of the pass: the node is settled, its parent may not be, and everyone else is as before. */
  lemma RollupStep(db: Db, id: TaskId, now: int) returns (db1: Db)
    requires Inv(db) && id < |db.tasks| && !db.tasks[id].kind.Leaf?
    requires Rollup(db.tasks[id].state, KidStates(db, id)).Some? && ChainSettled(db, db.tasks[id].parent)
    ensures Transition(db, id, Rollup(db.tasks[id].state, KidStates(db, id)).value, RollupPass, now) == Ok(db1)
    ensures Inv(db1) && SameShape(db.tasks, db1.tasks)
    ensures forall q: TaskId | q < |db.tasks| && q != id && db.tasks[id].parent != Some(q) :: Settled(db1, q) == Settled(db, q)
    ensures Settled(db1, id)
    ensures var up := db.tasks[id].parent;
      up.Some? ==> up.value < id && !db1.tasks[up.value].kind.Leaf? && Rooted(db1) && ChainSettled(db1, db1.tasks[up.value].parent)
  {
    hide Inv, TreeOk, KidStates, RollupTarget;
    SoundTree(db);
    var p := db.tasks[id];
    var next := Rollup(p.state, KidStates(db, id)).value;
    RollupIsAllowed(p.state, KidStates(db, id), p.kind);
    RollupIsIdempotent(p.state, KidStates(db, id));
    TransitionKeeps(db, id, next, RollupPass, now);
    ParentIsInner(db, id);
    db1 := Transition(db, id, next, RollupPass, now).value;
    OneMoves(db, db1, id);
    hide Rollup, Transition;
    if p.parent.Some? {
      SoundTree(db1);
      ChainFrame(db, db1, db.tasks[p.parent.value].parent, p.parent.value);
    }
  }

  /** One node has moved: only it and its parent can read something else. */
  lemma OneMoves(db: Db, db1: Db, id: TaskId)
    requires Rooted(db) && |db.tasks| == |db1.tasks| && id < |db.tasks|
    requires forall i: TaskId | i < |db.tasks| :: db1.tasks[i].parent == db.tasks[i].parent
    requires forall i: TaskId | i < |db.tasks| && i != id :: db1.tasks[i].state == db.tasks[i].state
    ensures forall s :: Rollup(s, KidStates(db1, id)) == Rollup(s, KidStates(db, id))
    ensures forall q: TaskId | q < |db.tasks| && q != id && db.tasks[id].parent != Some(q) :: Settled(db1, q) == Settled(db, q)
  {
    hide KidStates, Rollup;
    assert db.tasks[id].parent != Some(id);
    AlikeKids(db, db1, id);
    forall q: TaskId | q < |db.tasks| && q != id && db.tasks[id].parent != Some(q)
      ensures Settled(db1, q) == Settled(db, q)
    {
      AlikeKids(db, db1, q);
    }
  }

  lemma {:induction false} AllChainsSettled(db: Db, p: Option<TaskId>, except: TaskId)
    requires Rooted(db) && (p.Some? ==> p.value < |db.tasks| && p.value < except)
    requires forall q: TaskId | q < |db.tasks| && q < except :: Settled(db, q)
    ensures ChainSettled(db, p)
    decreases if p.Some? then p.value + 1 else 0
  {
    if p.Some? {
      AllChainsSettled(db, db.tasks[p.value].parent, except);
    }
  }

  /**
   * A rollup after a change under `parent`: every node but `parent` that the change left settled ends
   * settled, `parent` ends settled, and a node that is not an ancestor keeps its verdict.
   */
  lemma RollupAfterChange(db: Db, parent: Option<TaskId>, now: int, odd: set<TaskId>)
    requires Inv(db)
    requires parent.Some? ==> parent.value < |db.tasks| && !db.tasks[parent.value].kind.Leaf?
    requires forall q: TaskId | q < |db.tasks| && q !in odd && parent != Some(q) :: Settled(db, q)
    requires forall q | q in odd :: q < |db.tasks| && (parent.Some? ==> parent.value < q)
    ensures RollupFrom(db, parent, now).Ok?
    ensures AllSettled(RollupFrom(db, parent, now).value) <==> forall q | q in odd :: Settled(db, q)
  {
    if parent.Some? {
      assert forall q: TaskId | q < parent.value :: q !in odd;
      assert TreeOk(db) && NodeOk(db, parent.value);
      AllChainsSettled(db, db.tasks[parent.value].parent, parent.value);
    }
    RollupSettles(db, parent, now);
    RollupKeeps(db, parent, now);
    RollupMovesParents(db, parent, now);
    var db' := RollupFrom(db, parent, now).value;
    forall q | q in odd
      ensures Settled(db', q) == Settled(db, q)
    {
      assert db'.tasks[q] == db.tasks[q];
      forall c: TaskId | IsKid(db, q, c)
        ensures Alike(db.tasks[c].state, db'.tasks[c].state)
      {
        assert Rooted(db);
      }
      AlikeKids(db, db', q);
    }
  }

  // ---- protocols that move nothing the rollup can see ----

  /** The row's own state is left alone, or moves between states that no rollup reacts to. */
  predicate CalmMove(s: TaskState, s': TaskState) {
    s == s' || (Moving(s) && Moving(s') && !s'.Decomposed?)
  }

  ghost predicate Calm(db: Db, db': Db) {
    && |db.tasks| == |db'.tasks|
    && forall i: TaskId | i < |db.tasks| ::
      db'.tasks[i].parent == db.tasks[i].parent && CalmMove(db.tasks[i].state, db'.tasks[i].state)
  }

  lemma CalmKeepsSettled(db: Db, db': Db)
    requires AllSettled(db) && Calm(db, db')
    ensures AllSettled(db')
  {
    forall p: TaskId | p < |db'.tasks|
      ensures Settled(db', p)
    {
      assert Settled(db, p);
      AlikeKids(db, db', p);
    }
  }

  lemma CalmThen(a: Db, b: Db, c: Db)
    requires Calm(a, b) && Calm(b, c)
    ensures Calm(a, c)
  {
  }

  lemma ReapOneIsCalm(db: Db, id: TaskId, now: int)
    requires ReapOne(db, id, now).Ok?
    ensures Calm(db, ReapOne(db, id, now).value)
  {
  }

  lemma {:induction false} ReapEachIsCalm(db: Db, ids: seq<TaskId>, now: int)
    requires ReapEach(db, ids, now).Ok?
    ensures Calm(db, ReapEach(db, ids, now).value)
    decreases |ids|
  {
    hide Calm, ReapOne;
    if |ids| == 0 {
      NothingIsCalm(db);
    } else {
      var db1 := ReapOne(db, ids[0], now).value;
      ReapOneIsCalm(db, ids[0], now);
      ReapEachIsCalm(db1, ids[1..], now);
      CalmThen(db, db1, ReapEach(db, ids, now).value);
    }
  }

  lemma {:induction false} ReleaseEachIsCalm(db: Db, ids: seq<TaskId>, now: int)
    requires ReleaseEach(db, ids, now).Ok? && Distinct(ids)
    requires forall x | x in ids :: x < |db.tasks| && db.tasks[x].state.Decomposing?
    ensures Calm(db, ReleaseEach(db, ids, now).value)
    decreases |ids|
  {
    hide Calm;
    if |ids| == 0 {
      NothingIsCalm(db);
    } else {
      var t := db.tasks[ids[0]];
      var db1 := Write(db, ids[0], t.(state := Ready, version := t.version + 1, updatedAt := now), Decomposing, Reaper, Plain);
      assert ids[0] in ids && ids[0] !in ids[1..];
      assert forall x | x in ids[1..] :: x in ids;
      WriteIsCalm(db, ids[0], t.(state := Ready, version := t.version + 1, updatedAt := now), Decomposing, Reaper, Plain);
      ReleaseEachIsCalm(db1, ids[1..], now);
      CalmThen(db, db1, ReleaseEach(db, ids, now).value);
    }
  }

  lemma {:induction false} ApproveEachIsCalm(db: Db, ids: seq<TaskId>, now: int)
    requires ApproveEach(db, ids, now).Ok?
    ensures Calm(db, ApproveEach(db, ids, now).value)
    decreases |ids|
  {
    hide Calm, Transition;
    if |ids| == 0 {
      NothingIsCalm(db);
    } else {
      if db.tasks[ids[0]].state.AwaitingApproval? {
        var db1 := Transition(db, ids[0], Ready, User, now).value;
        TransitionIsCalm(db, ids[0], Ready, User, now);
        ApproveEachIsCalm(db1, ids[1..], now);
        CalmThen(db, db1, ApproveEach(db, ids, now).value);
      } else {
        ApproveEachIsCalm(db, ids[1..], now);
      }
    }
  }

  lemma ClaimIsCalm(db: Db, limit: nat, owner: Owner, leaseSecs: int, busy: set<TaskId>, now: int)
    requires Claim(db, limit, owner, leaseSecs, busy, now).Ok?
    ensures Calm(db, Claim(db, limit, owner, leaseSecs, busy, now).value)
  {
    if limit > 0 {
      CandidatesAreClaimable(db, limit, busy);
      LeasedAreCalm(db, Candidates(db, limit, busy), owner, ClampLease(leaseSecs), now);
    }
  }

  lemma LeasedAreCalm(db: Db, ids: seq<TaskId>, owner: Owner, lease: int, now: int)
    requires Distinct(ids) && ClaimEach(db, ids, 0, owner, lease, now).Ok?
    requires forall x | x in ids :: x < |db.tasks| && db.tasks[x].state.Ready?
    ensures Calm(db, ClaimEach(db, ids, 0, owner, lease, now).value)
  {
    ClaimEachGives(db, ids, 0, owner, lease, now);
  }

  lemma StaleReleaseIsCalm(db: Db, op: Op, now: int)
    requires Rooted(db) && op.ReapDecomposingOp? && Apply(db, op, now).Ok?
    ensures Calm(db, Apply(db, op, now).value)
  {
    var bound := ClampLease(op.maxAgeSecs);
    var keep := (i: TaskId) => PlanStale(db, i, bound, now) && i !in op.busy;
    SelectMembers(keep, |db.tasks|);
    assert forall x | x in Select(keep, |db.tasks|) :: keep(x);
    ReleaseEachIsCalm(db, Select(keep, |db.tasks|), now);
  }

  lemma HeartbeatIsCalm(db: Db, id: TaskId, owner: Owner, leaseSecs: int, now: int)
    requires Heartbeat(db, id, owner, leaseSecs, now).Ok?
    ensures Calm(db, Heartbeat(db, id, owner, leaseSecs, now).value)
  {
  }

  /** One row is written, and its own move is calm. */
  lemma WriteIsCalm(db: Db, id: TaskId, row: Task, from: TaskState, actor: ActorClass, note: Note)
    requires id < |db.tasks| && row.parent == db.tasks[id].parent && CalmMove(db.tasks[id].state, row.state)
    ensures Calm(db, Write(db, id, row, from, actor, note))
  {
  }

  lemma TransitionIsCalm(db: Db, id: TaskId, to: TaskState, actor: ActorClass, now: int)
    requires Transition(db, id, to, actor, now).Ok? && CalmMove(db.tasks[id].state, to)
    ensures Calm(db, Transition(db, id, to, actor, now).value)
  {
  }

  lemma HumanIsCalm(db: Db, op: Op, now: int)
    requires Rooted(db) && Apply(db, op, now).Ok?
    requires op.ReviewNoteOp? || op.ApproveOp? || op.AnswerOp?
    ensures Calm(db, Apply(db, op, now).value)
  {
    hide Calm, Transition, Write, HasAwaitingMark;
    var id := op.task;
    var t := db.tasks[id];
    NothingIsCalm(db);
    if op.ReviewNoteOp? {
      WriteIsCalm(db, id, t, InReview, Poller, if op.awaiting then AwaitingPrApproval else PollError);
    } else if op.ApproveOp? && t.state.InReview? {
      WriteIsCalm(db, id, t, InReview, User, PrApproved);
    } else {
      TransitionIsCalm(db, id, Ready, User, now);
    }
  }

  lemma NothingIsCalm(db: Db)
    ensures Calm(db, db)
  {
  }

  lemma UpdatePolicyIsCalm(db: Db, id: TaskId, policy: Policy, actor: ActorClass, now: int)
    requires UpdatePolicy(db, id, policy, actor, now).Ok?
    ensures Calm(db, UpdatePolicy(db, id, policy, actor, now).value)
  {
    hide Calm, Write;
    var t := db.tasks[id];
    WriteIsCalm(db, id, t.(policy := Some(policy), version := t.version + 1, updatedAt := now), t.state, User, PolicyUpdated);
  }

  lemma StartIsCalm(db: Db, id: TaskId, owner: Owner, now: int)
    requires Start(db, id, owner, now).Ok?
    ensures Calm(db, Start(db, id, owner, now).value)
  {
    hide Calm, Transition;
    TransitionIsCalm(db, id, Running, Worker, now);
  }

  lemma CompleteIsCalm(db: Db, id: TaskId, owner: Owner, checked: bool, now: int)
    requires Complete(db, id, owner, checked, now).Ok?
    ensures Calm(db, Complete(db, id, owner, checked, now).value)
  {
    hide Transition;
    TransitionIsCalm(db, id, InReview, Worker, now);
  }

  lemma MarkLeafIsCalm(db: Db, id: TaskId, expected: nat, key: IdemKey, tokens: nat, checked: bool, now: int)
    requires MarkLeaf(db, id, expected, key, tokens, checked, now).Ok?
    ensures Calm(db, MarkLeaf(db, id, expected, key, tokens, checked, now).value)
  {
    hide MarkLeaf, Transition;
    var db1, to := MarkLeafUnfolds(db, id, expected, key, tokens, checked, now);
    TransitionIsCalm(db1, id, to, Planner, now);
  }

  lemma CreateKeepsSettled(db: Db, op: Op, now: int)
    requires Inv(db) && AllSettled(db) && op.CreateOp? && Apply(db, op, now).Ok?
    ensures AllSettled(Apply(db, op, now).value)
  {
    var db' := Apply(db, op, now).value;
    forall p: TaskId | p < |db'.tasks|
      ensures Settled(db', p)
    {
      if p < |db.tasks| {
        assert Settled(db, p);
        KidsFrame(db.tasks, db'.tasks, p, |db.tasks|);
        assert KidStates(db', p) == KidStates(db, p);
      }
    }
  }

  // ---- protocols that the rollup has to follow ----

  /** Its children have work left and none of them is stuck, so the rollup would not leave it blocked. */
  predicate BlocksEarly(db: Db, id: TaskId) {
    AnyLive(KidStates(db, id)) && !AnyStuck(KidStates(db, id))
  }

  lemma BlockedFixpoint(children: seq<TaskState>)
    ensures Rollup(Blocked, children).None? <==> !(AnyLive(children) && !AnyStuck(children))
  {
  }

  /** Only row `id` has moved, and its children have not: everyone but `id` and its parent is as before. */
  lemma MovedAlone(db: Db, db1: Db, id: TaskId)
    requires Rooted(db) && |db.tasks| == |db1.tasks| && id < |db.tasks|
    requires forall i: TaskId | i < |db.tasks| :: db1.tasks[i].parent == db.tasks[i].parent
    requires forall i: TaskId | i < |db.tasks| && i != id :: db1.tasks[i].state == db.tasks[i].state
    ensures forall q: TaskId | q < |db.tasks| && q != id && db.tasks[id].parent != Some(q) :: Settled(db1, q) == Settled(db, q)
    ensures forall s :: Rollup(s, KidStates(db1, id)) == Rollup(s, KidStates(db, id))
    ensures AnyStuck(KidStates(db1, id)) == AnyStuck(KidStates(db, id))
    ensures AnyLive(KidStates(db1, id)) == AnyLive(KidStates(db, id))
  {
    hide KidStates, Rollup, AnyStuck, AnyLive;
    OneMoves(db, db1, id);
    assert db.tasks[id].parent != Some(id);
    AlikeFlags(db, db1, id);
    AlikeFlags(db1, db, id);
  }

  /** A plan that ends blocked, from tables that differ from `db` in attempts only. */
  lemma BlockPlanSettles(db: Db, db1: Db, id: TaskId, now: int)
    requires AllSettled(db) && Inv(db1) && id < |db.tasks| == |db1.tasks|
    requires forall i: TaskId | i < |db.tasks| :: db1.tasks[i].parent == db.tasks[i].parent && db1.tasks[i].state == db.tasks[i].state
    requires !db.tasks[id].state.IsLeased() && BlockPlan(db1, id, db.tasks[id].parent, now).Ok?
    ensures AllSettled(BlockPlan(db1, id, db.tasks[id].parent, now).value) <==> !BlocksEarly(db, id)
  {
    var parent := db.tasks[id].parent;
    var db2 := Transition(db1, id, Blocked, Planner, now).value;
    TransitionKeeps(db1, id, Blocked, Planner, now);
    ParentIsInner(db2, id);
    MovedAlone(db, db2, id);
    forall q: TaskId | q < |db2.tasks| && q !in {id} && parent != Some(q)
      ensures Settled(db2, q)
    {
      assert Settled(db, q);
    }
    RollupAfterChange(db2, parent, now, {id});
    BlockedFixpoint(KidStates(db2, id));
  }

  predicate PlanStartBlocks(db: Db, id: TaskId) {
    && id < |db.tasks|
    && AttemptLimit(db, db.tasks[id]).Some?
    && var policy := PolicyOf(db, db.tasks[id].campaign).value;
      || db.tasks[id].attempts >= policy.maxPlanAttempts
      || PlanTokens(db, db.tasks[id].campaign, |db.attempts|) >= policy.maxPlanTokens
  }

  predicate PlanCloseBlocks(db: Db, id: TaskId, result: PlanResult) {
    && id < |db.tasks|
    && (result.Rejects? || result.FindsInjection?
        || (result.Errs? && AttemptLimit(db, db.tasks[id]).Some?
            && db.tasks[id].attempts + 1 >= AttemptLimit(db, db.tasks[id]).value))
  }

  lemma PlanStartSettles(db: Db, id: TaskId, now: int)
    requires Inv(db) && AllSettled(db) && PlanStart(db, id, now).Ok?
    ensures AllSettled(PlanStart(db, id, now).value) <==> !(PlanStartBlocks(db, id) && BlocksEarly(db, id))
  {
    if PlanStartBlocks(db, id) {
      BlockPlanSettles(db, db, id, now);
    } else {
      PlanStartIsCalm(db, id, now);
      CalmKeepsSettled(db, PlanStart(db, id, now).value);
    }
  }

  lemma PlanStartIsCalm(db: Db, id: TaskId, now: int)
    requires Rooted(db) && PlanStart(db, id, now).Ok? && !PlanStartBlocks(db, id)
    ensures Calm(db, PlanStart(db, id, now).value)
  {
    assert PlanStart(db, id, now) == Transition(db, id, Decomposing, Planner, now);
  }

  lemma PlanCloseIsCalm(db: Db, op: Op, now: int)
    requires Rooted(db) && op.PlanCloseOp? && Apply(db, op, now).Ok?
    requires !PlanCloseBlocks(db, op.task, op.result)
    ensures Calm(db, Apply(db, op, now).value)
  {
    hide Calm, PlanClose, Transition, BlockPlan;
    var db1 := PlanCloseUnfolds(db, op.task, op.expected, op.key, op.tokens, op.result, op.checked, now);
    if op.result.Errs? {
      var counted := SetAttempts(db1, op.task, db.tasks[op.task].attempts + 1);
      PlanReturns(db, counted, op.task, Ready, now);
    } else {
      PlanReturns(db, db1, op.task, AwaitingApproval, now);
    }
  }

  /** A planned node goes back to waiting, on tables that differ from `db` in attempts only. */
  lemma PlanReturns(db: Db, db1: Db, id: TaskId, to: TaskState, now: int)
    requires id < |db.tasks| == |db1.tasks| && db.tasks[id].state.Decomposing?
    requires forall i: TaskId | i < |db.tasks| :: db1.tasks[i].parent == db.tasks[i].parent && db1.tasks[i].state == db.tasks[i].state
    requires (to.Ready? || to.AwaitingApproval?) && Transition(db1, id, to, Planner, now).Ok?
    ensures Calm(db, Transition(db1, id, to, Planner, now).value)
  {
  }

  /** The closing attempt and its counter leave every invariant and every state alone. */
  lemma CountedAttempt(db: Db, db1: Db, a: Attempt, id: TaskId, attempts: nat)
    requires Inv(db) && a.kind.Planning? && id < |db.tasks|
    requires db1 == db.(attempts := db.attempts + [a])
    ensures Inv(db1) && Inv(SetAttempts(db1, id, attempts))
  {
    hide Inv;
    PlanAttemptKeeps(db, a);
    CounterKeeps(db1, id, attempts);
  }

  lemma PlanCloseSettles(db: Db, op: Op, now: int)
    requires Inv(db) && AllSettled(db) && op.PlanCloseOp? && Apply(db, op, now).Ok?
    ensures AllSettled(Apply(db, op, now).value) <==> !(PlanCloseBlocks(db, op.task, op.result) && BlocksEarly(db, op.task))
  {
    var id := op.task;
    if !PlanCloseBlocks(db, id, op.result) {
      PlanCloseIsCalm(db, op, now);
      CalmKeepsSettled(db, Apply(db, op, now).value);
    } else {
      var db1, db2 := PlanCloseBlocking(db, op, now);
      CountedAttempt(db, db1, Attempt(id, Planning, op.key, None, CloseOutcome(op.result), op.tokens), id, db.tasks[id].attempts + 1);
      BlockPlanSettles(db, db2, id, now);
    }
  }

  /** A blocking close is `BlockPlan` on tables that differ from `db` in attempts only. */
  lemma PlanCloseBlocking(db: Db, op: Op, now: int) returns (db1: Db, db2: Db)
    requires Rooted(db) && op.PlanCloseOp? && Apply(db, op, now).Ok? && PlanCloseBlocks(db, op.task, op.result)
    ensures op.task < |db.tasks| && db.tasks[op.task].state.Decomposing?
    ensures db1 == db.(attempts := db.attempts + [Attempt(op.task, Planning, op.key, None, CloseOutcome(op.result), op.tokens)])
    ensures db2 == db1 || db2 == SetAttempts(db1, op.task, db.tasks[op.task].attempts + 1)
    ensures Apply(db, op, now) == BlockPlan(db2, op.task, db.tasks[op.task].parent, now)
  {
    hide PlanClose, Transition, BlockPlan;
    db1 := PlanCloseUnfolds(db, op.task, op.expected, op.key, op.tokens, op.result, op.checked, now);
    db2 := if op.result.Errs? then SetAttempts(db1, op.task, db.tasks[op.task].attempts + 1) else db1;
  }

  /** A row leaves for a state that needs no rollup of its own, and its parent is recomputed. */
  lemma FinishSettles(db: Db, db1: Db, id: TaskId, now: int)
    requires AllSettled(db) && Inv(db1) && id < |db.tasks| == |db1.tasks|
    requires forall i: TaskId | i < |db.tasks| :: db1.tasks[i].parent == db.tasks[i].parent
    requires forall i: TaskId | i < |db.tasks| && i != id :: db1.tasks[i].state == db.tasks[i].state
    requires !Inner(db1.tasks[id].state)
    ensures RollupFrom(db1, db.tasks[id].parent, now).Ok?
    ensures AllSettled(RollupFrom(db1, db.tasks[id].parent, now).value)
  {
    ParentIsInner(db1, id);
    assert Rooted(db);
    MovedAlone(db, db1, id);
    forall q: TaskId | q < |db1.tasks| && db.tasks[id].parent != Some(q)
      ensures Settled(db1, q)
    {
      assert Settled(db, q);
    }
    RollupAfterChange(db1, db.tasks[id].parent, now, {});
  }

  lemma MergeSettles(db: Db, id: TaskId, now: int)
    requires Inv(db) && AllSettled(db) && ResolveReview(db, id, true, now).Ok?
    ensures AllSettled(ResolveReview(db, id, true, now).value)
  {
    TransitionKeeps(db, id, Done, Poller, now);
    FinishSettles(db, Transition(db, id, Done, Poller, now).value, id, now);
  }

  lemma RetrySettles(db: Db, id: TaskId, actor: ActorClass, now: int)
    requires Inv(db) && AllSettled(db) && Retry(db, id, actor, now).Ok?
    ensures AllSettled(Retry(db, id, actor, now).value)
  {
    TransitionKeeps(db, id, Ready, User, now);
    FinishSettles(db, Transition(db, id, Ready, User, now).value, id, now);
  }

  /** A ready dependent of the leaf that would be blocked although its own children have work left. */
  ghost predicate BlocksDependentEarly(db: Db, leaf: TaskId) {
    exists c: TaskId | c < |db.tasks| :: db.tasks[c].state.Ready? && leaf in db.tasks[c].dependsOn && BlocksEarly(db, c)
  }

  ghost function ReadyDependents(db: Db, leaf: TaskId): set<TaskId> {
    set c: TaskId | c < |db.tasks| && db.tasks[c].state.Ready? && leaf in db.tasks[c].dependsOn
  }

  /** Blocking the dependents of `id` moves children of `parent` only, so other nodes read what they read. */
  lemma BlockingSiblings(db: Db, db3: Db, id: TaskId, p: TaskId, q: TaskId)
    requires |db.tasks| == |db3.tasks| && q < |db.tasks| && q != p
    requires forall i: TaskId | i < |db.tasks| :: db3.tasks[i].parent == db.tasks[i].parent
    requires forall i: TaskId | i < |db.tasks| && db.tasks[i].parent != Some(p) :: db3.tasks[i].state == db.tasks[i].state
    ensures forall s :: Rollup(s, KidStates(db3, q)) == Rollup(s, KidStates(db, q))
    ensures BlocksEarly(db3, q) == BlocksEarly(db, q)
  {
    AlikeKids(db, db3, q);
    AlikeFlags(db, db3, q);
    AlikeFlags(db3, db, q);
  }

  /** A leaf has failed in `db2`, and its dependents are blocked: who is settled before the rollup. */
  lemma BlockedDependents(db: Db, db2: Db, id: TaskId, now: int) returns (db3: Db)
    requires AllSettled(db) && Inv(db2) && id < |db.tasks| == |db2.tasks|
    requires forall i: TaskId | i < |db.tasks| ::
      db2.tasks[i].parent == db.tasks[i].parent && db2.tasks[i].dependsOn == db.tasks[i].dependsOn
    requires forall i: TaskId | i < |db.tasks| && i != id :: db2.tasks[i].state == db.tasks[i].state
    requires db2.tasks[id].state.Failed? && !db.tasks[id].state.Ready? && db.tasks[id].parent.Some?
    requires BlockDependents(db2, id, db.tasks[id].parent, now).Ok?
    ensures db3 == BlockDependents(db2, id, db.tasks[id].parent, now).value
    ensures Inv(db3) && SamePlaces(db2, db3)
    ensures forall q: TaskId | q < |db.tasks| && q !in ReadyDependents(db, id) && db.tasks[id].parent != Some(q) :: Settled(db3, q)
    ensures forall c | c in ReadyDependents(db, id) :: db.tasks[id].parent.value < c && (Settled(db3, c) <==> !BlocksEarly(db, c))
  {
    var p := db.tasks[id].parent.value;
    db3 := BlockDependents(db2, id, Some(p), now).value;
    DependentsAreBlocked(db2, id, now);
    BlockEachKeeps(db2, id, Kids(db2, p), now);
    forall c: TaskId | c < |db.tasks| && db.tasks[c].parent != Some(p)
      ensures db3.tasks[c].state == db.tasks[c].state
    {
      assert DepsAmongSiblings(db2.tasks, db2.tasks[c]);
    }
    forall q: TaskId | q < |db.tasks| && q !in ReadyDependents(db, id) && q != p
      ensures Settled(db3, q)
    {
      BlockingSiblings(db, db3, id, p, q);
      assert Settled(db, q);
    }
    forall c | c in ReadyDependents(db, id)
      ensures p < c && (Settled(db3, c) <==> !BlocksEarly(db, c))
    {
      assert DepsAmongSiblings(db2.tasks, db2.tasks[c]);
      assert Rooted(db2);
      BlockingSiblings(db, db3, id, p, c);
      BlockedFixpoint(KidStates(db3, c));
    }
  }

  lemma FailureSettles(db: Db, db2: Db, id: TaskId, now: int)
    requires AllSettled(db) && Inv(db2) && id < |db.tasks| == |db2.tasks|
    requires forall i: TaskId | i < |db.tasks| ::
      db2.tasks[i].parent == db.tasks[i].parent && db2.tasks[i].dependsOn == db.tasks[i].dependsOn
    requires forall i: TaskId | i < |db.tasks| && i != id :: db2.tasks[i].state == db.tasks[i].state
    requires db2.tasks[id].state.Failed? && !db.tasks[id].state.Ready? && db.tasks[id].parent.Some?
    requires BlockDependents(db2, id, db.tasks[id].parent, now).Ok?
    ensures var db3 := BlockDependents(db2, id, db.tasks[id].parent, now).value;
      && RollupFrom(db3, db.tasks[id].parent, now).Ok?
      && (AllSettled(RollupFrom(db3, db.tasks[id].parent, now).value) <==> !BlocksDependentEarly(db, id))
  {
    var parent := db.tasks[id].parent;
    var db3 := BlockedDependents(db, db2, id, now);
    ParentIsInner(db3, id);
    RollupAfterChange(db3, parent, now, ReadyDependents(db, id));
    assert BlocksDependentEarly(db, id) <==> exists c | c in ReadyDependents(db, id) :: BlocksEarly(db, c);
  }

  lemma FailSettles(db: Db, id: TaskId, owner: Owner, timedOut: bool, checked: bool, now: int)
    requires Inv(db) && AllSettled(db) && Fail(db, id, owner, timedOut, checked, now).Ok?
    ensures AllSettled(Fail(db, id, owner, timedOut, checked, now).value) <==> !BlocksDependentEarly(db, id)
  {
    var outcome := if timedOut then TimedOut else Erred;
    ReleasingKeeps(db, id, Failed, Worker, now, Some(owner), outcome);
    assert NodeOk(db, id) && LeaseOk(db.tasks[id]);
    FailureSettles(db, CloseWork(Transition(db, id, Failed, Worker, now).value, id, Some(owner), outcome), id, now);
  }

  lemma RejectionSettles(db: Db, id: TaskId, now: int)
    requires Inv(db) && AllSettled(db) && ResolveReview(db, id, false, now).Ok?
    ensures AllSettled(ResolveReview(db, id, false, now).value) <==> !BlocksDependentEarly(db, id)
  {
    TransitionKeeps(db, id, Failed, Poller, now);
    assert NodeOk(db, id);
    FailureSettles(db, Transition(db, id, Failed, Poller, now).value, id, now);
  }

  // ---- subtrees ----

  /** A row of the subtree other than its top has its parent in the subtree. */
  lemma SubtreeIsClosed(db: Db, top: TaskId, c: TaskId)
    requires TreeOk(db) && top < |db.tasks| && c < |db.tasks|
    requires InSubtree(db, top, c) && c != top
    ensures db.tasks[c].parent.Some? && db.tasks[c].parent.value < c && InSubtree(db, top, db.tasks[c].parent.value)
  {
    assert NodeOk(db, c) && NodeOk(db, top);
    if |db.tasks[top].path| == |db.tasks[c].path| {
      PathsAreUnique(db, top, c);
    }
  }

  /** The subtree's rows have moved, so that none of them is `decomposed` or `blocked`. */
  lemma SubtreeMoved(db: Db, db1: Db, top: TaskId)
    requires TreeOk(db) && AllSettled(db) && top < |db.tasks| == |db1.tasks|
    requires forall i: TaskId | i < |db.tasks| :: db1.tasks[i].parent == db.tasks[i].parent
    requires forall i: TaskId | i < |db.tasks| ::
      if InSubtree(db, top, i) then !Inner(db1.tasks[i].state) else db1.tasks[i].state == db.tasks[i].state
    ensures forall q: TaskId | q < |db.tasks| && db.tasks[top].parent != Some(q) :: Settled(db1, q)
  {
    forall q: TaskId | q < |db.tasks| && db.tasks[top].parent != Some(q)
      ensures Settled(db1, q)
    {
      if !InSubtree(db, top, q) {
        forall c: TaskId | IsKid(db, q, c)
          ensures db1.tasks[c].state == db.tasks[c].state
        {
          if InSubtree(db, top, c) {
            SubtreeIsClosed(db, top, c);
          }
        }
        assert Settled(db, q);
        AlikeKids(db, db1, q);
      }
    }
  }

  lemma CancelSettles(db: Db, op: Op, now: int)
    requires Inv(db) && AllSettled(db) && op.CancelOp? && Apply(db, op, now).Ok?
    ensures AllSettled(Apply(db, op, now).value)
  {
    hide Inv, TreeOk, AllSettled, CancelEach, Subtree, RollupFrom;
    SoundTree(db);
    var id := op.task;
    var db1 := CancelEach(db, Subtree(db, id), now).value;
    SubtreeMembers(db, id);
    CancelEachExact(db, Subtree(db, id), now);
    CancelEachKeeps(db, Subtree(db, id), now);
    SoundTree(db1);
    ParentIsInner(db1, id);
    SubtreeMoved(db, db1, id);
    RollupAfterChange(db1, db.tasks[id].parent, now, {});
  }

  /** The node is blocked, its parent is blocked, and no other child of that parent is stuck. */
  ghost predicate OnlyStuckChild(db: Db, id: TaskId) {
    && id < |db.tasks| && db.tasks[id].state.Blocked?
    && db.tasks[id].parent.Some? && db.tasks[id].parent.value < |db.tasks|
    && db.tasks[db.tasks[id].parent.value].state.Blocked?
    && forall c: TaskId | IsKid(db, db.tasks[id].parent.value, c) && c != id :: !db.tasks[c].state.IsStuck()
  }

  /** One child of a settled parent is sent back to planning. */
  lemma ReplannedChild(db: Db, db': Db, p: TaskId, id: TaskId)
    requires |db.tasks| == |db'.tasks| && IsKid(db, p, id) && p < |db.tasks|
    requires forall c: TaskId | c < |db.tasks| :: db'.tasks[c].parent == db.tasks[c].parent
    requires forall c: TaskId | IsKid(db, p, c) && c != id :: db'.tasks[c].state == db.tasks[c].state
    requires db'.tasks[p].state == db.tasks[p].state && Inner(db.tasks[id].state) && db'.tasks[id].state.Decomposing?
    requires Settled(db, p)
    ensures Settled(db', p) <==> !OnlyStuckChild(db, id)
  {
    hide KidStates, Rollup, AnyStuck;
    StuckKids(db, p);
    StuckKids(db', p);
    StateIsListed(db, p, id);
    assert IsKid(db', p, id);
    StateIsListed(db', p, id);
    OpenWorkDecides(db'.tasks[p].state, KidStates(db', p), Decomposing);
    if db.tasks[id].state.Decomposed? {
      OpenWorkDecides(db.tasks[p].state, KidStates(db, p), Decomposed);
    } else {
      StuckDecides(db.tasks[p].state, KidStates(db, p));
    }
    assert forall c: TaskId :: IsKid(db, p, c) <==> IsKid(db', p, c);
  }

  lemma StateIsListed(db: Db, p: TaskId, c: TaskId)
    requires IsKid(db, p, c)
    ensures db.tasks[c].state in KidStates(db, p)
  {
    KidStatesAreKids(db, p);
  }

  /** Over a child with work left, the parent stays where it is exactly when it shows whether a child is stuck. */
  lemma OpenWorkDecides(parent: TaskState, children: seq<TaskState>, open: TaskState)
    requires open in children && Moving(open)
    ensures Rollup(parent, children).None? <==> !Inner(parent) || (if AnyStuck(children) then parent.Blocked? else parent.Decomposed?)
  {
  }

  lemma StuckDecides(parent: TaskState, children: seq<TaskState>)
    requires Blocked in children
    ensures AnyStuck(children) && (Rollup(parent, children).None? <==> !parent.Decomposed?)
  {
  }

  /** The live rows under `id` are superseded and `id` is planned again; no other state has moved. */
  ghost predicate Replanned(db: Db, db': Db, id: TaskId) {
    && id < |db.tasks| == |db'.tasks|
    && Inner(db.tasks[id].state) && db'.tasks[id].state.Decomposing?
    && forall i: TaskId | i < |db.tasks| ::
      && db'.tasks[i].parent == db.tasks[i].parent
      && (i == id
          || db'.tasks[i].state == (if InSubtree(db, id, i) && !db.tasks[i].state.IsTerminal() then Superseded else db.tasks[i].state))
  }

  lemma SiblingOutside(db: Db, id: TaskId, c: TaskId)
    requires TreeOk(db) && id < |db.tasks| && c < |db.tasks| && c != id
    requires db.tasks[id].parent.Some? && db.tasks[c].parent == db.tasks[id].parent
    ensures !InSubtree(db, id, c)
  {
    assert NodeOk(db, id) && NodeOk(db, c);
    if db.tasks[id].path == db.tasks[c].path {
      PathsAreUnique(db, id, c);
    }
  }

  lemma ReplannedSettles(db: Db, db': Db, id: TaskId)
    requires TreeOk(db) && AllSettled(db) && Replanned(db, db', id)
    ensures AllSettled(db') <==> !OnlyStuckChild(db, id)
  {
    SubtreeMoved(db, db', id);
    ParentIsInner(db, id);
    var parent := db.tasks[id].parent;
    if parent.Some? {
      var p := parent.value;
      forall c: TaskId | IsKid(db, p, c) && c != id
        ensures db'.tasks[c].state == db.tasks[c].state
      {
        SiblingOutside(db, id, c);
      }
      assert NodeOk(db, id);
      assert !InSubtree(db, id, p);
      assert Settled(db, p);
      ReplannedChild(db, db', p, id);
      assert AllSettled(db') <==> Settled(db', p);
    }
  }

  lemma ReplanSettles(db: Db, id: TaskId, actor: ActorClass, now: int)
    requires Inv(db) && AllSettled(db) && Replan(db, id, actor, now).Ok?
    ensures AllSettled(Replan(db, id, actor, now).value) <==> !OnlyStuckChild(db, id)
  {
    ReplanSupersedes(db, id, actor, now);
    ReplannedSettles(db, Replan(db, id, actor, now).value, id);
  }

  // ---- decomposition ----

  lemma {:induction false} KidsOfOthers(a: seq<Task>, b: seq<Task>, q: TaskId, n: nat)
    requires |a| <= n <= |b|
    requires forall i: TaskId | i < |a| :: a[i].parent == b[i].parent
    requires forall i: TaskId | |a| <= i < n :: b[i].parent != Some(q)
    ensures KidsBelow(b, q, n) == KidsBelow(a, q, |a|)
  {
    if n == |a| {
      KidsFrame(a, b, q, n);
    } else {
      KidsOfOthers(a, b, q, n - 1);
    }
  }

  /** `db'` has new children under `id`, which is now decomposed; the other rows' states are as before. */
  ghost predicate Expanded(db: Db, db': Db, id: TaskId) {
    && id < |db.tasks| < |db'.tasks|
    && db.tasks[id].state.Decomposing? && db'.tasks[id].state.Decomposed?
    && (forall i: TaskId | i < |db.tasks| :: db'.tasks[i].parent == db.tasks[i].parent)
    && (forall i: TaskId | i < |db.tasks| && i != id :: db'.tasks[i].state == db.tasks[i].state)
    && (forall i: TaskId | |db.tasks| <= i < |db'.tasks| ::
          db'.tasks[i].parent == Some(id) && (db'.tasks[i].state.Ready? || db'.tasks[i].state.AwaitingApproval?))
  }

  lemma OthersStaySettled(db: Db, db': Db, id: TaskId, q: TaskId)
    requires AllSettled(db) && Expanded(db, db', id) && q < |db.tasks| && q != id
    ensures Settled(db', q)
  {
    var db1 := db.(tasks := db'.tasks[..|db.tasks|]);
    assert Settled(db, q);
    AlikeKids(db, db1, q);
    KidsOfOthers(db1.tasks, db'.tasks, q, |db'.tasks|);
    assert KidStates(db', q) == KidStates(db1, q);
  }

  lemma StuckKids(db: Db, p: TaskId)
    ensures AnyStuck(KidStates(db, p)) <==> exists c: TaskId :: IsKid(db, p, c) && db.tasks[c].state.IsStuck()
  {
    KidStatesAreKids(db, p);
    if AnyStuck(KidStates(db, p)) {
      var s :| s in KidStates(db, p) && s.IsStuck();
      var c: TaskId :| IsKid(db, p, c) && db.tasks[c].state == s;
    }
    if exists c: TaskId :: IsKid(db, p, c) && db.tasks[c].state.IsStuck() {
      var c: TaskId :| IsKid(db, p, c) && db.tasks[c].state.IsStuck();
      assert db.tasks[c].state in KidStates(db, p);
    }
  }

  lemma ExpandedNodeSettles(db: Db, db': Db, id: TaskId)
    requires Rooted(db) && Expanded(db, db', id)
    ensures Settled(db', id) <==> !AnyStuck(KidStates(db, id))
  {
    StuckKids(db, id);
    StuckKids(db', id);
    assert forall c: TaskId :: IsKid(db, id, c) ==> IsKid(db', id, c) && db'.tasks[c].state == db.tasks[c].state;
    assert forall c: TaskId :: IsKid(db', id, c) && db'.tasks[c].state.IsStuck() ==> IsKid(db, id, c);
    var open := db'.tasks[|db.tasks|].state;
    assert open in KidStates(db', id) by {
      KidStatesAreKids(db', id);
      assert IsKid(db', id, |db.tasks|);
    }
    OpenWorkTarget(KidStates(db', id), open);
  }

  lemma OpenWorkTarget(children: seq<TaskState>, open: TaskState)
    requires open in children && Moving(open)
    ensures Rollup(Decomposed, children).None? <==> !AnyStuck(children)
  {
  }

  lemma BatchRows(db: Db, id: TaskId, deps: seq<seq<nat>>, state: TaskState, now: int)
    requires Inv(db) && id < |db.tasks|
    requires !db.tasks[id].kind.Leaf? && db.tasks[id].state.Decomposing? && |db.tasks[id].path| <= 6
    requires |Kids(db, id)| + |deps| <= 8 && DepsInBatch(deps) && !state.IsLeased()
    ensures var added := AddKids(db, id, state, |Kids(db, id)|, |db.tasks|, deps, 0, now);
      && added.Ok? && |added.value.tasks| == |db.tasks| + |deps| && db.tasks <= added.value.tasks
      && forall i: TaskId | |db.tasks| <= i < |added.value.tasks| ::
        added.value.tasks[i].parent == Some(id) && added.value.tasks[i].state == state
  {
    hide Inv, Kids, AddKids, MaxOrdinal, DepsInBatch, BatchFollows, BatchIds;
    BatchKeeps(db, id, deps, state, now);
    var db2 := AddKids(db, id, state, |Kids(db, id)|, |db.tasks|, deps, 0, now).value;
    BatchGrows(db.tasks, db2.tasks, id, state, |Kids(db, id)|, |db.tasks|, deps, now);
    forall i: TaskId | |db.tasks| <= i < |db2.tasks|
      ensures db2.tasks[i].parent == Some(id) && db2.tasks[i].state == state
    {
      BatchRow(db.tasks, db2.tasks, id, state, |Kids(db, id)|, |db.tasks|, deps, now, i - |db.tasks|);
    }
  }

  /** What a committed decomposition did to the states of the rows. */
  lemma DecomposeExpands(db: Db, op: Op, now: int)
    requires Inv(db) && op.DecomposeOp? && Apply(db, op, now).Ok?
    ensures Expanded(db, Apply(db, op, now).value, op.task)
  {
    hide Inv, Decompose, AddKids, MaxOrdinal, DepsInBatch, Transition, Expanded, BatchFollows;
    var id := op.task;
    var db1, state := DecomposeUnfolds(db, id, op.expected, op.key, op.tokens, op.deps, op.checked, now);
    PlanAttemptKeeps(db, Attempt(id, Planning, op.key, None, Split, op.tokens));
    assert Kids(db1, id) == Kids(db, id);
    MaxOrdinalFrame(db, db1, Kids(db, id));
    BatchKeeps(db1, id, op.deps, state, now);
    BatchRows(db1, id, op.deps, state, now);
    ExpandedByBatch(db, AddKids(db1, id, state, |Kids(db, id)|, |db.tasks|, op.deps, 0, now).value, id, state, now);
  }

  lemma ExpandedByBatch(db: Db, db2: Db, id: TaskId, state: TaskState, now: int)
    requires id < |db.tasks| < |db2.tasks| && db.tasks <= db2.tasks && db.tasks[id].state.Decomposing?
    requires state.Ready? || state.AwaitingApproval?
    requires forall i: TaskId | |db.tasks| <= i < |db2.tasks| :: db2.tasks[i].parent == Some(id) && db2.tasks[i].state == state
    requires Transition(db2, id, Decomposed, Planner, now).Ok?
    ensures Expanded(db, Transition(db2, id, Decomposed, Planner, now).value, id)
  {
  }

  lemma DecomposeSettles(db: Db, op: Op, now: int)
    requires Inv(db) && AllSettled(db) && op.DecomposeOp? && Apply(db, op, now).Ok?
    ensures AllSettled(Apply(db, op, now).value) <==> !AnyStuck(KidStates(db, op.task))
  {
    var db' := Apply(db, op, now).value;
    DecomposeExpands(db, op, now);
    ExpandedNodeSettles(db, db', op.task);
    forall q: TaskId | q < |db'.tasks| && q != op.task
      ensures Settled(db', q)
    {
      if q < |db.tasks| {
        OthersStaySettled(db, db', op.task, q);
      }
    }
  }

  // ---- every protocol ----

  /** The calls after which some node is not where the rollup rule puts it. */
  ghost predicate Disturbs(db: Db, op: Op) {
    match op
    case PlanStartOp(id) => PlanStartBlocks(db, id) && BlocksEarly(db, id)
    case PlanCloseOp(id, _, _, _, result, _) => PlanCloseBlocks(db, id, result) && BlocksEarly(db, id)
    case DecomposeOp(id, _, _, _, _, _) => AnyStuck(KidStates(db, id))
    case FailOp(id, _, _, _) => BlocksDependentEarly(db, id)
    case ResolveReviewOp(id, merged) => !merged && BlocksDependentEarly(db, id)
    case ReplanOp(id, _) => OnlyStuckChild(db, id)
    case _ => false
  }

  lemma CalmOp(db: Db, op: Op, now: int)
    requires Inv(db) && Apply(db, op, now).Ok?
    requires !op.CreateOp? && !op.PlanStartOp? && !op.PlanCloseOp? && !op.DecomposeOp? && !op.FailOp?
    requires !op.ResolveReviewOp? && !op.RetryOp? && !op.CancelOp? && !op.ReplanOp?
    ensures Calm(db, Apply(db, op, now).value)
  {
    hide Inv, Calm, Claim, Heartbeat, Start, Complete, MarkLeaf, ReviewNote, Approve, Answer, UpdatePolicy,
      ReapEach, ApproveEach, Kids, Select;
    SoundTree(db);
    match op
    case ClaimOp(limit, owner, leaseSecs, busy) => ClaimIsCalm(db, limit, owner, leaseSecs, busy, now);
    case ReapOp(busy) => ReapEachIsCalm(db, Select((i: TaskId) => Expired(db, i, now) && i !in busy, |db.tasks|), now);
    case ReapDecomposingOp(_, _) => StaleReleaseIsCalm(db, op, now);
    case ApproveChildrenOp(task, _) => ApproveEachIsCalm(db, Kids(db, task), now);
    case StartOp(task, owner) => StartIsCalm(db, task, owner, now);
    case CompleteOp(task, owner, checked) => CompleteIsCalm(db, task, owner, checked, now);
    case MarkLeafOp(task, expected, key, tokens, checked) => MarkLeafIsCalm(db, task, expected, key, tokens, checked, now);
    case HeartbeatOp(task, owner, leaseSecs) => HeartbeatIsCalm(db, task, owner, leaseSecs, now);
    case UpdatePolicyOp(task, policy, actor) => UpdatePolicyIsCalm(db, task, policy, actor, now);
    case _ => HumanIsCalm(db, op, now);
  }

  /**
   * From tables in which every node is at its rollup fixpoint, a protocol that commits leaves every node
   * at its fixpoint if and only if it is not one of the calls that `Disturbs` names.
   */
  lemma RollupIsExact(db: Db, op: Op, now: int)
    requires Inv(db) && AllSettled(db) && Apply(db, op, now).Ok?
    ensures AllSettled(Apply(db, op, now).value) <==> !Disturbs(db, op)
  {
    hide Inv, AllSettled, BlocksEarly, BlocksDependentEarly, OnlyStuckChild, PlanStartBlocks, PlanCloseBlocks, KidStates,
      Create, PlanStart, Decompose, MarkLeaf, PlanClose, Claim, Heartbeat, Reap, ReapDecomposing, Start, Complete,
      Fail, ResolveReview, ReviewNote, Approve, ApproveChildren, Answer, Retry, UpdatePolicy, Cancel, Replan;
    SoundTree(db);
    var db' := Apply(db, op, now).value;
    match op
    case CreateOp(_, _, _, _) => CreateKeepsSettled(db, op, now);
    case PlanStartOp(id) => PlanStartSettles(db, id, now);
    case PlanCloseOp(_, _, _, _, _, _) => PlanCloseSettles(db, op, now);
    case DecomposeOp(_, _, _, _, _, _) => DecomposeSettles(db, op, now);
    case FailOp(id, owner, timedOut, checked) => FailSettles(db, id, owner, timedOut, checked, now);
    case ResolveReviewOp(id, merged) => if merged { MergeSettles(db, id, now); } else { RejectionSettles(db, id, now); }
    case RetryOp(id, actor) => RetrySettles(db, id, actor, now);
    case CancelOp(_, _) => CancelSettles(db, op, now);
    case ReplanOp(id, actor) => ReplanSettles(db, id, actor, now);
    case _ => CalmOp(db, op, now); CalmKeepsSettled(db, db');
  }
}
