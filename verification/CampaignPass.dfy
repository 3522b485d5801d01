/**
 * What the rollup pass leaves, told in rows and parent links alone: where every ancestor ends, which of them
 * the pass reaches, and what a store in which every node is settled looks like.
 */
module CampaignPass {
  import opened Outcomes
  import opened CampaignRules
  import opened CampaignTables
  import opened CampaignProtocols
  import opened CampaignInvariants
  import opened CampaignEffects
  import opened CampaignRuns
  import opened CampaignRollup

  // ---- the vocabulary ----

  /** A child that counts: neither superseded nor cancelled. */
  predicate LiveChild(db: Db, p: TaskId, c: TaskId) {
    c < |db.tasks| && db.tasks[c].parent == Some(p) && !db.tasks[c].state.Superseded? && !db.tasks[c].state.Cancelled?
  }

  ghost predicate HasLiveChild(db: Db, p: TaskId) {
    exists c: TaskId :: LiveChild(db, p, c)
  }

  ghost predicate HasStuckChild(db: Db, p: TaskId) {
    exists c: TaskId :: LiveChild(db, p, c) && (db.tasks[c].state.Failed? || db.tasks[c].state.Blocked?)
  }

  ghost predicate HasCancelledChild(db: Db, p: TaskId) {
    exists c: TaskId :: c < |db.tasks| && db.tasks[c].parent == Some(p) && db.tasks[c].state.Cancelled?
  }

  ghost predicate LiveChildrenDone(db: Db, p: TaskId) {
    forall c: TaskId | LiveChild(db, p, c) :: db.tasks[c].state.Done?
  }

  /**
   * Where row `p`, in state `was` before the pass, stands over its children. A decomposed or blocked row is
   * done exactly when some child counts and all that count are done; it is blocked exactly when one of them is
   * failed or blocked, or when none counts and one was cancelled or the row was blocked already; and otherwise
   * it is decomposed. Any other row stays as it was.
   */
  ghost predicate RolledUp(was: TaskState, db: Db, p: TaskId)
    requires p < |db.tasks|
  {
    var stands := db.tasks[p].state;
    if was.Decomposed? || was.Blocked? then
      && (stands.Done? <==> HasLiveChild(db, p) && LiveChildrenDone(db, p))
      && (stands.Blocked? <==> HasStuckChild(db, p) || (!HasLiveChild(db, p) && (HasCancelledChild(db, p) || was.Blocked?)))
      && (stands.Done? || stands.Blocked? || stands.Decomposed?)
    else stands == was
  }

  /** The row of a state write: one version on, stamped, and leased only while it is claimed or running. */
  ghost predicate Becomes(t: Task, t': Task, to: TaskState, now: int) {
    var leased := to.Claimed? || to.Running?;
    t' == t.(state := to, version := t.version + 1, updatedAt := now,
             claimedBy := if leased then t.claimedBy else None, leaseUntil := if leased then t.leaseUntil else None)
  }

  /** A row that the pass has looked at: written only if its state moved. */
  ghost predicate Settles(t: Task, t': Task, now: int) {
    if t'.state == t.state then t' == t else Becomes(t, t', t'.state, now)
  }

  /** A child of `q` on the way up from `p` has moved. */
  ghost predicate MovedBelow(db: Db, db': Db, p: Option<TaskId>, q: TaskId)
    requires Rooted(db) && |db'.tasks| == |db.tasks|
  {
    exists c: TaskId :: c < |db.tasks| && db.tasks[c].parent == Some(q) && OnChain(db, p, c) && db'.tasks[c] != db.tasks[c]
  }

  /** Everything the pass from `p` does: it starts at `p` and goes on to a parent exactly when its child has moved. */
  ghost predicate PassedOver(db: Db, db': Db, p: Option<TaskId>, now: int)
    requires Rooted(db)
  {
    && |db'.tasks| == |db.tasks|
    && (forall q: TaskId | q < |db.tasks| ::
          if OnChain(db, p, q) && (p == Some(q) || MovedBelow(db, db', p, q))
          then RolledUp(db.tasks[q].state, db', q) && Settles(db.tasks[q], db'.tasks[q], now)
          else db'.tasks[q] == db.tasks[q])
    && db.events <= db'.events
    && (forall k | |db.events| <= k < |db'.events| :: db'.events[k].actor.RollupPass? && db'.events[k].note.Plain?)
    && db'.attempts == db.attempts
  }

  // ---- the rule over rows ----

  lemma AnyOverRows(db: Db, p: TaskId)
    ensures (exists s | s in KidStates(db, p) :: !s.Superseded? && !s.Cancelled?) <==> HasLiveChild(db, p)
    ensures (exists s | s in KidStates(db, p) :: s.Failed? || s.Blocked?) <==> HasStuckChild(db, p)
  {
    hide KidStates;
    KidStatesAreKids(db, p);
    if s :| s in KidStates(db, p) && !s.Superseded? && !s.Cancelled? {
      var c: TaskId :| IsKid(db, p, c) && db.tasks[c].state == s;
      assert LiveChild(db, p, c);
    }
    if s :| s in KidStates(db, p) && (s.Failed? || s.Blocked?) {
      var c: TaskId :| IsKid(db, p, c) && db.tasks[c].state == s;
      assert LiveChild(db, p, c);
    }
    if HasLiveChild(db, p) {
      var c: TaskId :| LiveChild(db, p, c);
      assert IsKid(db, p, c);
    }
    if HasStuckChild(db, p) {
      var c: TaskId :| LiveChild(db, p, c) && (db.tasks[c].state.Failed? || db.tasks[c].state.Blocked?);
      assert IsKid(db, p, c);
    }
  }

  lemma AllOverRows(db: Db, p: TaskId)
    ensures (forall s | s in KidStates(db, p) && !s.Superseded? && !s.Cancelled? :: s.Done?) <==> LiveChildrenDone(db, p)
    ensures Cancelled in KidStates(db, p) <==> HasCancelledChild(db, p)
  {
    hide KidStates;
    KidStatesAreKids(db, p);
    if s :| s in KidStates(db, p) && !s.Superseded? && !s.Cancelled? && !s.Done? {
      var c: TaskId :| IsKid(db, p, c) && db.tasks[c].state == s;
      assert LiveChild(db, p, c);
    }
    if c: TaskId :| LiveChild(db, p, c) && !db.tasks[c].state.Done? {
      assert IsKid(db, p, c);
    }
    if HasCancelledChild(db, p) {
      var c: TaskId :| c < |db.tasks| && db.tasks[c].parent == Some(p) && db.tasks[c].state.Cancelled?;
      assert IsKid(db, p, c);
    }
  }

  /** The rule over the children's states, read over rows. */
  lemma RolledUpOverRows(was: TaskState, db: Db, p: TaskId)
    requires p < |db.tasks|
    ensures var next := Rollup(was, KidStates(db, p));
      RolledUp(was, db, p) <==> db.tasks[p].state == if next.Some? then next.value else was
  {
    hide Rollup, KidStates, HasLiveChild, HasStuckChild, HasCancelledChild, LiveChildrenDone;
    RollupMeans(was, KidStates(db, p));
    AnyOverRows(db, p);
    AllOverRows(db, p);
  }

  /** Every node of a store is settled exactly when every row stands where its children put it. */
  lemma SettledMeans(db: Db)
    ensures AllSettled(db) <==> forall p: TaskId | p < |db.tasks| :: RolledUp(db.tasks[p].state, db, p)
  {
    hide RolledUp, KidStates;
    forall p: TaskId | p < |db.tasks|
      ensures Settled(db, p) <==> RolledUp(db.tasks[p].state, db, p)
    {
      RolledUpOverRows(db.tasks[p].state, db, p);
    }
  }

  /** Every row stands where its children put it. */
  ghost predicate AllRolledUp(db: Db) {
    forall p: TaskId | p < |db.tasks| :: RolledUp(db.tasks[p].state, db, p)
  }

  /** From a store whose rows all stand, a committed call leads to another exactly when it disturbs none. */
  lemma RowsKeepStanding(db: Db, op: Op, now: int)
    requires Inv(db) && AllRolledUp(db) && Rooted(db) && Apply(db, op, now).Ok?
    ensures AllRolledUp(Apply(db, op, now).value) <==> !Disturbs(db, op)
  {
    hide Inv, Apply, RolledUp, Disturbs, AllSettled;
    SettledMeans(db);
    RollupIsExact(db, op, now);
    SettledMeans(Apply(db, op, now).value);
  }

  // ---- the pass over rows ----

  lemma {:induction false} ChainIsBelow(db: Db, p: Option<TaskId>, q: TaskId)
    requires Rooted(db) && OnChain(db, p, q)
    ensures p.Some? && q <= p.value < |db.tasks|
    decreases if p.Some? then p.value + 1 else 0
  {
    if p.value != q {
      ChainIsBelow(db, db.tasks[p.value].parent, q);
    }
  }

  /** What a row reads of its children is as before when no child has changed. */
  lemma SameChildren(db: Db, db': Db, was: TaskState, p: TaskId)
    requires p < |db.tasks| == |db'.tasks|
    requires forall c: TaskId | c < |db.tasks| && (db.tasks[c].parent == Some(p) || db'.tasks[c].parent == Some(p)) ::
      db'.tasks[c] == db.tasks[c]
    requires db'.tasks[p].state == db.tasks[p].state
    ensures RolledUp(was, db', p) <==> RolledUp(was, db, p)
  {
    assert forall c: TaskId :: LiveChild(db', p, c) <==> LiveChild(db, p, c);
  }

  /** The pass from `p` when the rule leaves `p` alone. */
  lemma PassStops(db: Db, p: TaskId, now: int)
    requires Rooted(db) && p < |db.tasks|
    requires Rollup(db.tasks[p].state, KidStates(db, p)).None?
    ensures PassedOver(db, db, Some(p), now)
  {
    hide Rollup, KidStates, RolledUp, OnChain;
    RolledUpOverRows(db.tasks[p].state, db, p);
  }

  /** One step of the pass, and then the pass from the parent. */
  lemma PassGoesOn(db: Db, db1: Db, db': Db, p: TaskId, now: int)
    requires Rooted(db) && p < |db.tasks| == |db1.tasks| && Rooted(db1)
    requires Becomes(db.tasks[p], db1.tasks[p], db1.tasks[p].state, now) && db1.tasks[p].state != db.tasks[p].state
    requires forall q: TaskId | q < |db.tasks| && q != p :: db1.tasks[q] == db.tasks[q]
    requires RolledUp(db.tasks[p].state, db1, p)
    requires PassedOver(db1, db', db.tasks[p].parent, now)
    requires db.events <= db1.events && db1.attempts == db.attempts
    requires forall k | |db.events| <= k < |db1.events| :: db1.events[k].actor.RollupPass? && db1.events[k].note.Plain?
    ensures PassedOver(db, db', Some(p), now)
  {
    hide RolledUp, OnChain;
    var up := db.tasks[p].parent;
    ChainStep(db, p, p);
    assert !OnChain(db1, up, p) by {
      if OnChain(db1, up, p) {
        ChainIsBelow(db1, up, p);
      }
    }
    assert db'.tasks[p] == db1.tasks[p];
    RowOfThePass(db, db1, db', p, now);
    forall q: TaskId | q < |db.tasks|
      ensures if OnChain(db, Some(p), q) && (p == q || MovedBelow(db, db', Some(p), q))
          then RolledUp(db.tasks[q].state, db', q) && Settles(db.tasks[q], db'.tasks[q], now)
          else db'.tasks[q] == db.tasks[q]
    {
      if q != p {
        SameWay(db, db1, db', p, q);
      }
    }
  }

  /** The row that the pass starts at: what it writes above does not touch the row's children. */
  lemma RowOfThePass(db: Db, db1: Db, db': Db, p: TaskId, now: int)
    requires Rooted(db1) && p < |db.tasks| == |db1.tasks|
    requires RolledUp(db.tasks[p].state, db1, p)
    requires db1.tasks[p].parent == db.tasks[p].parent
    requires PassedOver(db1, db', db1.tasks[p].parent, now)
    ensures db'.tasks[p] == db1.tasks[p] && RolledUp(db.tasks[p].state, db', p)
  {
    hide RolledUp, OnChain;
    var up := db1.tasks[p].parent;
    forall c: TaskId | c < |db1.tasks| && p <= c
      ensures db'.tasks[c] == db1.tasks[c]
    {
      if OnChain(db1, up, c) {
        ChainIsBelow(db1, up, c);
      }
    }
    forall c: TaskId | c < |db1.tasks|
      ensures db'.tasks[c].parent == db1.tasks[c].parent
    {
    }
    SameChildren(db1, db', db.tasks[p].state, p);
  }

  /** Above `p`, the way up and the moved rows on it are the same before and after `p` was written. */
  lemma SameWay(db: Db, db1: Db, db': Db, p: TaskId, q: TaskId)
    requires Rooted(db) && Rooted(db1) && p < |db.tasks| == |db1.tasks| == |db'.tasks| && q < |db.tasks| && q != p
    requires db1.tasks[p].parent == db.tasks[p].parent && db'.tasks[p] != db.tasks[p]
    requires forall i: TaskId | i < |db.tasks| && i != p :: db1.tasks[i] == db.tasks[i]
    ensures OnChain(db, Some(p), q) == OnChain(db1, db.tasks[p].parent, q)
    ensures OnChain(db, Some(p), q) ==>
      (MovedBelow(db, db', Some(p), q) <==> db.tasks[p].parent == Some(q) || MovedBelow(db1, db', db.tasks[p].parent, q))
  {
    var up := db.tasks[p].parent;
    OnChainFrame(db, db1, up, q);
    assert OnChain(db, Some(p), p);
    hide OnChain;
    forall c: TaskId | c < |db.tasks| && c != p
      ensures OnChain(db, Some(p), c) == OnChain(db1, up, c)
    {
      ChainStep(db, p, c);
      OnChainFrame(db, db1, up, c);
    }
    if OnChain(db1, up, p) {
      ChainIsBelow(db1, up, p);
    }
    if MovedBelow(db, db', Some(p), q) {
      var c: TaskId :| c < |db.tasks| && db.tasks[c].parent == Some(q) && OnChain(db, Some(p), c) && db'.tasks[c] != db.tasks[c];
      assert c != p ==> OnChain(db1, up, c);
    }
  }

  lemma ChainStep(db: Db, p: TaskId, c: TaskId)
    requires Rooted(db) && p < |db.tasks|
    ensures OnChain(db, Some(p), c) <==> c == p || OnChain(db, db.tasks[p].parent, c)
  {
  }

  /** The pass does all of that and nothing else. */
  lemma {:induction false} PassEnds(db: Db, parent: Option<TaskId>, now: int)
    requires Rooted(db) && (parent.Some? ==> parent.value < |db.tasks|)
    requires RollupFrom(db, parent, now).Ok?
    ensures PassedOver(db, RollupFrom(db, parent, now).value, parent, now)
    decreases if parent.Some? then parent.value + 1 else 0
  {
    hide PassedOver, Rollup, KidStates, RolledUp, OnChain;
    if parent.None? {
      NoPass(db, now);
    } else {
      var p := parent.value;
      var next := Rollup(db.tasks[p].state, KidStates(db, p));
      if next.None? {
        PassStops(db, p, now);
      } else {
        var db1 := Transition(db, p, next.value, RollupPass, now).value;
        FirstStep(db, p, now);
        PassEnds(db1, db.tasks[p].parent, now);
        PassGoesOn(db, db1, RollupFrom(db, parent, now).value, p, now);
      }
    }
  }

  lemma NoPass(db: Db, now: int)
    requires Rooted(db)
    ensures PassedOver(db, db, None, now)
  {
  }

  lemma FirstStep(db: Db, p: TaskId, now: int)
    requires Rooted(db) && p < |db.tasks|
    requires var next := Rollup(db.tasks[p].state, KidStates(db, p)); next.Some? && Transition(db, p, next.value, RollupPass, now).Ok?
    ensures var next := Rollup(db.tasks[p].state, KidStates(db, p)).value; var db1 := Transition(db, p, next, RollupPass, now).value;
      && db1.tasks[p].state == next != db.tasks[p].state
      && RolledUp(db.tasks[p].state, db1, p)
  {
    hide KidStates, RolledUp;
    var next := Rollup(db.tasks[p].state, KidStates(db, p)).value;
    var db1 := Transition(db, p, next, RollupPass, now).value;
    KidStatesOfMoved(db, db1, p);
    RolledUpOverRows(db.tasks[p].state, db1, p);
  }

  /** A row is not its own child, so a write to it does not change what it reads. */
  lemma KidStatesOfMoved(db: Db, db1: Db, p: TaskId)
    requires Rooted(db) && p < |db.tasks| == |db1.tasks|
    requires forall i: TaskId | i < |db.tasks| :: db1.tasks[i].parent == db.tasks[i].parent
    requires forall i: TaskId | i < |db.tasks| && i != p :: db1.tasks[i].state == db.tasks[i].state
    ensures KidStates(db1, p) == KidStates(db, p)
  {
    KidsFrame(db.tasks, db1.tasks, p, |db.tasks|);
    assert Kids(db1, p) == Kids(db, p);
    assert KidStates(db1, p) == KidStates(db, p);
  }
}
