/**
 * What the calls that write many rows leave: the reapers, an approval of children, a failed leaf with its
 * dependents, `cancel` and `replan`.
 */
module CampaignSweeps {
  import opened Outcomes
  import opened Collections
  import opened CampaignRules
  import opened CampaignTables
  import opened CampaignProtocols
  import opened CampaignInvariants
  import opened CampaignSafety
  import opened CampaignEffects
  import opened CampaignRuns
  import opened CampaignRollup
  import opened CampaignPass
  import opened CampaignEndings

  // ---- loops over rows ----

  /** The pending work of the rows in `lost` is closed as lost; every other attempt is as it was. */
  ghost predicate WorkLost(before: seq<Attempt>, lost: set<TaskId>, after: seq<Attempt>) {
    && |after| == |before|
    && forall a | 0 <= a < |before| ::
      after[a] == if before[a].task in lost && before[a].kind.Work? && before[a].outcome.Pending?
                  then before[a].(outcome := LostLease) else before[a]
  }

  /** The listed rows have gone to `to`, with an event each in the list's order; no other row has moved. */
  ghost predicate Swept(db: Db, db': Db, ids: seq<TaskId>, to: TaskState, actor: ActorClass, now: int) {
    && Distinct(ids) && AreRows(db.tasks, ids) && |db'.tasks| == |db.tasks|
    && (forall i: TaskId | i < |db.tasks| :: SweptRow(db.tasks[i], db'.tasks[i], i in ids, to, now))
    && db'.events == db.events + Moves(db.tasks, ids, to, actor)
  }

  ghost predicate SweptRow(t: Task, t': Task, listed: bool, to: TaskState, now: int) {
    if listed then Becomes(t.(supersededBy := t'.supersededBy), t', to, now) else t' == t
  }

  /** The superseded rows name `root` as what took their place; with none, the rows name what they named. */
  ghost predicate Named(db: Db, db': Db, ids: seq<TaskId>, root: Option<TaskId>) {
    && |db'.tasks| == |db.tasks|
    && forall i: TaskId | i < |db.tasks| && i in ids ::
      db'.tasks[i].supersededBy == if root.Some? then root else db.tasks[i].supersededBy
  }

  lemma NothingSwept(db: Db, to: TaskState, actor: ActorClass, root: Option<TaskId>, now: int)
    ensures Swept(db, db, [], to, actor, now) && Named(db, db, [], root) && WorkLost(db.attempts, {}, db.attempts)
    ensures ToSet<TaskId>([]) == {}
  {
  }

  /** The row that a step of a loop has written. */
  ghost predicate SweptOne(db: Db, db1: Db, id: TaskId, to: TaskState, actor: ActorClass, root: Option<TaskId>, now: int) {
    && OnlyRow(db, db1, id)
    && db1.tasks[id].supersededBy == (if root.Some? then root else db.tasks[id].supersededBy)
    && Becomes(db.tasks[id].(supersededBy := db1.tasks[id].supersededBy), db1.tasks[id], to, now)
    && db1.events == db.events + [MoveOf(id, db.tasks[id], to, actor)]
  }

  lemma SweptIds(db: Db, db': Db, ids: seq<TaskId>, to: TaskState, actor: ActorClass, now: int)
    requires Swept(db, db', ids, to, actor, now)
    ensures Distinct(ids) && AreRows(db.tasks, ids)
  {
  }

  /** A step of a loop, and the steps after it. */
  lemma SweptThen(db: Db, db1: Db, db': Db, id: TaskId, rest: seq<TaskId>, to: TaskState, actor: ActorClass, root: Option<TaskId>, now: int)
    requires SweptOne(db, db1, id, to, actor, root, now) && id !in rest
    requires Swept(db1, db', rest, to, actor, now) && Named(db1, db', rest, root)
    ensures Swept(db, db', [id] + rest, to, actor, now) && Named(db, db', [id] + rest, root)
  {
    hide MoveOf, Becomes, Moves;
    MovesFirst(db.tasks, db1.tasks, id, rest, to, actor);
    forall i: TaskId | i < |db.tasks|
      ensures SweptRow(db.tasks[i], db'.tasks[i], i in [id] + rest, to, now)
    {
      assert SweptRow(db1.tasks[i], db'.tasks[i], i in rest, to, now);
    }
  }

  lemma MovesFirst(a: seq<Task>, b: seq<Task>, id: TaskId, rest: seq<TaskId>, to: TaskState, actor: ActorClass)
    requires id < |a| == |b| && forall i: TaskId | i < |a| && i != id :: b[i] == a[i]
    requires Distinct(rest) && id !in rest && AreRows(b, rest)
    ensures Distinct([id] + rest) && AreRows(a, [id] + rest)
    ensures Moves(a, [id] + rest, to, actor) == [MoveOf(id, a[id], to, actor)] + Moves(b, rest, to, actor)
  {
    hide MoveOf;
    assert ([id] + rest)[1..] == rest;
    assert forall k | 0 <= k < |rest| :: rest[k] in rest;
    MovesFrame(a, b, rest, to, actor);
  }

  lemma WorkLostThen(a: seq<Attempt>, id: TaskId, rest: seq<TaskId>, c: seq<Attempt>)
    requires WorkLost(CloseAttempts(a, id, None, LostLease), ToSet(rest), c)
    ensures WorkLost(a, ToSet([id] + rest), c)
  {
    assert forall x :: x in ToSet([id] + rest) <==> x == id || x in rest;
  }

  /** What was moved stands in the order of the list. */
  ghost predicate Follows(ids: seq<TaskId>, moved: seq<TaskId>) {
    forall a, b | 0 <= a < b < |moved| :: StandInOrder(ids, moved[a], moved[b])
  }

  ghost predicate StandInOrder(ids: seq<TaskId>, x: TaskId, y: TaskId) {
    exists i, j :: 0 <= i < j < |ids| && ids[i] == x && ids[j] == y
  }

  lemma NothingFollows(ids: seq<TaskId>)
    ensures Follows(ids, [])
  {
  }

  lemma FollowsLater(ids: seq<TaskId>, moved: seq<TaskId>)
    requires |ids| > 0 && Follows(ids[1..], moved)
    ensures Follows(ids, moved)
  {
    forall a, b | 0 <= a < b < |moved|
      ensures StandInOrder(ids, moved[a], moved[b])
    {
      assert StandInOrder(ids[1..], moved[a], moved[b]);
      var i, j :| 0 <= i < j < |ids[1..]| && ids[1..][i] == moved[a] && ids[1..][j] == moved[b];
      assert ids[i + 1] == moved[a] && ids[j + 1] == moved[b];
    }
  }

  lemma FollowsFirst(ids: seq<TaskId>, rest: seq<TaskId>)
    requires |ids| > 0 && Follows(ids[1..], rest) && forall x | x in rest :: x in ids[1..]
    ensures Follows(ids, [ids[0]] + rest)
  {
    FollowsLater(ids, rest);
    var moved := [ids[0]] + rest;
    forall a, b | 0 <= a < b < |moved|
      ensures StandInOrder(ids, moved[a], moved[b])
    {
      assert moved[b] == rest[b - 1] && rest[b - 1] in rest;
      if a == 0 {
        var j :| 0 <= j < |ids[1..]| && ids[1..][j] == rest[b - 1];
        assert ids[0] == moved[a] && ids[j + 1] == moved[b];
      } else {
        assert moved[a] == rest[a - 1];
        assert StandInOrder(ids, rest[a - 1], rest[b - 1]);
      }
    }
  }

  /** Ascending ids: the order of their ordinals among siblings. */
  ghost predicate Rising(ids: seq<TaskId>) {
    forall a, b | 0 <= a < b < |ids| :: ids[a] < ids[b]
  }

  lemma RisingFollows(ids: seq<TaskId>, moved: seq<TaskId>)
    requires Rising(ids) && Follows(ids, moved)
    ensures Rising(moved)
  {
    forall a, b | 0 <= a < b < |moved|
      ensures moved[a] < moved[b]
    {
      assert StandInOrder(ids, moved[a], moved[b]);
    }
  }

  lemma {:induction false} KidsRise(tasks: seq<Task>, p: TaskId, n: nat)
    requires n <= |tasks|
    ensures Rising(KidsBelow(tasks, p, n))
  {
    if n > 0 {
      KidsRise(tasks, p, n - 1);
    }
  }

  lemma {:induction false} SelectRises(keep: TaskId -> bool, n: nat)
    ensures Rising(Select(keep, n))
  {
    if n > 0 {
      SelectRises(keep, n - 1);
      SelectMembers(keep, n - 1);
      var before := Select(keep, n - 1);
      assert forall k | 0 <= k < |before| :: before[k] in before;
    }
  }

  lemma Headed(ids: seq<TaskId>)
    requires |ids| > 0 && Distinct(ids)
    ensures ids == [ids[0]] + ids[1..] && ids[0] !in ids[1..] && Distinct(ids[1..])
    ensures forall x :: x in ids <==> x == ids[0] || x in ids[1..]
  {
  }

  // ---- the reapers ----

  lemma {:induction false} ReapEachEnds(db: Db, ids: seq<TaskId>, now: int)
    requires ReapEach(db, ids, now).Ok? && Distinct(ids)
    ensures var db' := ReapEach(db, ids, now).value;
      Swept(db, db', ids, Ready, Reaper, now) && Named(db, db', ids, None) && WorkLost(db.attempts, ToSet(ids), db'.attempts)
    decreases |ids|
  {
    hide ReapOne, Swept, SweptOne, Named, WorkLost, CloseAttempts;
    if |ids| == 0 {
      NothingSwept(db, Ready, Reaper, None, now);
    } else {
      var db1 := ReapOne(db, ids[0], now).value;
      Headed(ids);
      ReapOneEnds(db, ids[0], now);
      ReapEachEnds(db1, ids[1..], now);
      SweptThen(db, db1, ReapEach(db, ids, now).value, ids[0], ids[1..], Ready, Reaper, None, now);
      WorkLostThen(db.attempts, ids[0], ids[1..], ReapEach(db, ids, now).value.attempts);
    }
  }

  lemma ReapOneEnds(db: Db, id: TaskId, now: int)
    requires ReapOne(db, id, now).Ok?
    ensures var db' := ReapOne(db, id, now).value;
      SweptOne(db, db', id, Ready, Reaper, None, now) && db'.attempts == CloseAttempts(db.attempts, id, None, LostLease)
  {
    hide Allowed, CloseAttempts;
  }

  /** The lease has an owner and ended before `now`. */
  predicate LeaseOver(t: Task, now: int) {
    t.claimedBy.Some? && t.leaseUntil.Some? && t.leaseUntil.value < now
  }

  /**
   * Every row whose lease is over, unless somebody has it locked, is ready again and free, with an event, and
   * its work is closed as lost. No other row and no other attempt changes.
   */
  ghost predicate TakenBack(db: Db, db': Db, busy: set<TaskId>, now: int) {
    exists ids ::
      && Rising(ids) && Swept(db, db', ids, Ready, Reaper, now) && Named(db, db', ids, None)
      && WorkLost(db.attempts, ToSet(ids), db'.attempts)
      && forall i: TaskId :: i in ids <==> i < |db.tasks| && LeaseOver(db.tasks[i], now) && i !in busy
  }

  lemma ReapEnds(db: Db, busy: set<TaskId>, now: int)
    requires Reap(db, busy, now).Ok?
    ensures TakenBack(db, Reap(db, busy, now).value, busy, now)
  {
    hide ReapEach, Swept, Named, WorkLost, Select;
    var keep := (i: TaskId) => Expired(db, i, now) && i !in busy;
    var ids := Select(keep, |db.tasks|);
    SelectMembers(keep, |db.tasks|);
    SelectRises(keep, |db.tasks|);
    ReapEachEnds(db, ids, now);
    assert forall i: TaskId :: i in ids <==> i < |db.tasks| && LeaseOver(db.tasks[i], now) && i !in busy;
  }

  /** A plan in flight that was last touched more than `secs` seconds before `now`: at least a minute, at most a day. */
  ghost predicate PlanOver(t: Task, secs: int, now: int) {
    && t.state.Decomposing? && !t.kind.Leaf?
    && (60 <= secs <= 86_400 ==> t.updatedAt + 1000 * secs < now)
    && (secs < 60 ==> t.updatedAt + 60_000 < now)
    && (secs > 86_400 ==> t.updatedAt + 86_400_000 < now)
  }

  ghost predicate PlansReleased(db: Db, db': Db, secs: int, busy: set<TaskId>, now: int) {
    && db'.attempts == db.attempts
    && exists ids ::
      && Rising(ids) && Swept(db, db', ids, Ready, Reaper, now) && Named(db, db', ids, None)
      && forall i: TaskId :: i in ids <==> i < |db.tasks| && PlanOver(db.tasks[i], secs, now) && i !in busy
  }

  /** A row that is being planned. */
  ghost predicate Planned(t: Task) {
    t.state.Decomposing? && t.claimedBy.None? && t.leaseUntil.None?
  }

  lemma {:induction false} ReleaseEachEnds(db: Db, ids: seq<TaskId>, now: int)
    requires ReleaseEach(db, ids, now).Ok? && Distinct(ids) && AreRows(db.tasks, ids)
    requires forall k | 0 <= k < |ids| :: Planned(db.tasks[ids[k]])
    ensures var db' := ReleaseEach(db, ids, now).value;
      Swept(db, db', ids, Ready, Reaper, now) && Named(db, db', ids, None) && db'.attempts == db.attempts
    decreases |ids|
  {
    hide Swept, SweptOne, Named, Write;
    if |ids| == 0 {
      NothingSwept(db, Ready, Reaper, None, now);
    } else {
      var db1 := ReleaseOneEnds(db, ids, now);
      Headed(ids);
      ReleaseEachEnds(db1, ids[1..], now);
      SweptThen(db, db1, ReleaseEach(db, ids, now).value, ids[0], ids[1..], Ready, Reaper, None, now);
    }
  }

  lemma ReleaseOneEnds(db: Db, ids: seq<TaskId>, now: int) returns (db1: Db)
    requires |ids| > 0 && Distinct(ids) && AreRows(db.tasks, ids) && forall k | 0 <= k < |ids| :: Planned(db.tasks[ids[k]])
    ensures ReleaseEach(db, ids, now) == ReleaseEach(db1, ids[1..], now)
    ensures SweptOne(db, db1, ids[0], Ready, Reaper, None, now) && db1.attempts == db.attempts
    ensures AreRows(db1.tasks, ids[1..]) && forall k | 0 <= k < |ids| - 1 :: Planned(db1.tasks[ids[1..][k]])
  {
    var t := db.tasks[ids[0]];
    db1 := Write(db, ids[0], t.(state := Ready, version := t.version + 1, updatedAt := now), Decomposing, Reaper, Plain);
    OthersAreRows(db.tasks, db1.tasks, ids);
    assert forall k | 0 <= k < |ids| - 1 :: ids[1..][k] == ids[k + 1];
  }

  lemma ReapDecomposingEnds(db: Db, maxAgeSecs: int, busy: set<TaskId>, now: int)
    requires Inv(db) && ReapDecomposing(db, maxAgeSecs, busy, now).Ok?
    ensures PlansReleased(db, ReapDecomposing(db, maxAgeSecs, busy, now).value, maxAgeSecs, busy, now)
  {
    hide Inv, ReleaseEach, Swept, Named, Select, Planned;
    var keep := (i: TaskId) => PlanStale(db, i, ClampLease(maxAgeSecs), now) && i !in busy;
    var ids := Select(keep, |db.tasks|);
    SelectMembers(keep, |db.tasks|);
    SelectRises(keep, |db.tasks|);
    assert forall i: TaskId :: i in ids <==> i < |db.tasks| && PlanOver(db.tasks[i], maxAgeSecs, now) && i !in busy;
    forall k | 0 <= k < |ids|
      ensures ids[k] < |db.tasks| && Planned(db.tasks[ids[k]])
    {
      assert ids[k] in ids;
      PlansAreFree(db, ids[k]);
    }
    ReleaseEachEnds(db, ids, now);
  }

  lemma PlansAreFree(db: Db, id: TaskId)
    requires Inv(db) && id < |db.tasks| && db.tasks[id].state.Decomposing?
    ensures Planned(db.tasks[id])
  {
    assert LeaseOk(db.tasks[id]);
  }

  // ---- loops that pass over some of their rows ----

  /** A transition, whatever it closes besides. */
  lemma TransitionSweeps(db: Db, id: TaskId, to: TaskState, actor: ActorClass, now: int)
    requires Transition(db, id, to, actor, now).Ok?
    ensures SweptOne(db, Transition(db, id, to, actor, now).value, id, to, actor, None, now)
    ensures Transition(db, id, to, actor, now).value.attempts == db.attempts
  {
    hide Allowed;
  }

  lemma {:induction false} ApproveEachEnds(db: Db, ids: seq<TaskId>, now: int) returns (moved: seq<TaskId>)
    requires ApproveEach(db, ids, now).Ok? && Distinct(ids) && AreRows(db.tasks, ids)
    ensures var db' := ApproveEach(db, ids, now).value;
      Swept(db, db', moved, Ready, User, now) && Named(db, db', moved, None) && db'.attempts == db.attempts
    ensures forall x: TaskId :: x in moved <==> x in ids && x < |db.tasks| && db.tasks[x].state.AwaitingApproval?
    ensures Follows(ids, moved)
    decreases |ids|
  {
    hide Follows, Swept, SweptOne, Named, Transition;
    if |ids| == 0 {
      NothingSwept(db, Ready, User, None, now);
      moved := [];
      NothingFollows(ids);
    } else {
      Headed(ids);
      if db.tasks[ids[0]].state.AwaitingApproval? {
        var db1 := Transition(db, ids[0], Ready, User, now).value;
        TransitionSweeps(db, ids[0], Ready, User, now);
        RestOfLoop(db, db1, ids, Ready, User, None, now);
        var rest := ApproveEachEnds(db1, ids[1..], now);
        SweptThen(db, db1, ApproveEach(db, ids, now).value, ids[0], rest, Ready, User, None, now);
        FollowsFirst(ids, rest);
        moved := [ids[0]] + rest;
      } else {
        moved := ApproveEachEnds(db, ids[1..], now);
        FollowsLater(ids, moved);
      }
    }
  }

  /** After a step, the rows still to come are as they were. */
  lemma RestOfLoop(db: Db, db1: Db, ids: seq<TaskId>, to: TaskState, actor: ActorClass, root: Option<TaskId>, now: int)
    requires |ids| > 0 && Distinct(ids) && AreRows(db.tasks, ids) && SweptOne(db, db1, ids[0], to, actor, root, now)
    ensures |db1.tasks| == |db.tasks| && AreRows(db1.tasks, ids[1..])
    ensures forall x: TaskId | x < |db.tasks| && x in ids[1..] :: db1.tasks[x] == db.tasks[x]
  {
    Headed(ids);
  }

  lemma {:induction false} BlockEachEnds(db: Db, leaf: TaskId, sibs: seq<TaskId>, now: int) returns (moved: seq<TaskId>)
    requires BlockEach(db, leaf, sibs, now).Ok? && Distinct(sibs) && AreRows(db.tasks, sibs)
    ensures var db' := BlockEach(db, leaf, sibs, now).value;
      Swept(db, db', moved, Blocked, RollupPass, now) && Named(db, db', moved, None) && db'.attempts == db.attempts
    ensures forall x: TaskId :: x in moved <==> x in sibs && x < |db.tasks| && db.tasks[x].state.Ready? && leaf in db.tasks[x].dependsOn
    ensures Follows(sibs, moved)
    decreases |sibs|
  {
    hide Follows, Swept, SweptOne, Named, Transition;
    if |sibs| == 0 {
      NothingSwept(db, Blocked, RollupPass, None, now);
      moved := [];
      NothingFollows(sibs);
    } else {
      Headed(sibs);
      if db.tasks[sibs[0]].state.Ready? && leaf in db.tasks[sibs[0]].dependsOn {
        var db1 := Transition(db, sibs[0], Blocked, RollupPass, now).value;
        TransitionSweeps(db, sibs[0], Blocked, RollupPass, now);
        RestOfLoop(db, db1, sibs, Blocked, RollupPass, None, now);
        var rest := BlockEachEnds(db1, leaf, sibs[1..], now);
        SweptThen(db, db1, BlockEach(db, leaf, sibs, now).value, sibs[0], rest, Blocked, RollupPass, None, now);
        FollowsFirst(sibs, rest);
        moved := [sibs[0]] + rest;
      } else {
        moved := BlockEachEnds(db, leaf, sibs[1..], now);
        FollowsLater(sibs, moved);
      }
    }
  }

  lemma {:induction false} CancelEachEnds(db: Db, ids: seq<TaskId>, now: int) returns (moved: seq<TaskId>)
    requires CancelEach(db, ids, now).Ok? && Distinct(ids) && AreRows(db.tasks, ids)
    ensures var db' := CancelEach(db, ids, now).value;
      Swept(db, db', moved, Cancelled, User, now) && Named(db, db', moved, None)
      && WorkLost(db.attempts, ToSet(moved), db'.attempts)
    ensures forall x: TaskId :: x in moved <==> x in ids && x < |db.tasks| && !db.tasks[x].state.IsTerminal()
    ensures Follows(ids, moved)
    decreases |ids|
  {
    hide Follows, Swept, SweptOne, Named, WorkLost, CloseAttempts, Transition;
    if |ids| == 0 {
      NothingSwept(db, Cancelled, User, None, now);
      moved := [];
      NothingFollows(ids);
    } else {
      Headed(ids);
      if db.tasks[ids[0]].state.IsTerminal() {
        moved := CancelEachEnds(db, ids[1..], now);
        FollowsLater(ids, moved);
      } else {
        var db1 := CloseWork(Transition(db, ids[0], Cancelled, User, now).value, ids[0], None, LostLease);
        CancelOneEnds(db, ids[0], now);
        RestOfLoop(db, db1, ids, Cancelled, User, None, now);
        var rest := CancelEachEnds(db1, ids[1..], now);
        SweptThen(db, db1, CancelEach(db, ids, now).value, ids[0], rest, Cancelled, User, None, now);
        WorkLostThen(db.attempts, ids[0], rest, CancelEach(db, ids, now).value.attempts);
        FollowsFirst(ids, rest);
        moved := [ids[0]] + rest;
      }
    }
  }

  lemma CancelOneEnds(db: Db, id: TaskId, now: int)
    requires Transition(db, id, Cancelled, User, now).Ok?
    ensures var db1 := CloseWork(Transition(db, id, Cancelled, User, now).value, id, None, LostLease);
      SweptOne(db, db1, id, Cancelled, User, None, now) && db1.attempts == CloseAttempts(db.attempts, id, None, LostLease)
  {
    hide Allowed, CloseAttempts;
  }

  lemma {:induction false} SupersedeEachEnds(db: Db, root: TaskId, ids: seq<TaskId>, now: int) returns (moved: seq<TaskId>)
    requires SupersedeEach(db, root, ids, now).Ok? && Distinct(ids) && AreRows(db.tasks, ids)
    ensures var db' := SupersedeEach(db, root, ids, now).value;
      Swept(db, db', moved, Superseded, User, now) && Named(db, db', moved, Some(root))
      && WorkLost(db.attempts, ToSet(moved), db'.attempts)
    ensures forall x: TaskId :: x in moved <==> x in ids && x < |db.tasks| && x != root && !db.tasks[x].state.IsTerminal()
    ensures Follows(ids, moved)
    decreases |ids|
  {
    hide Follows, Swept, SweptOne, Named, WorkLost, CloseAttempts, Transition;
    if |ids| == 0 {
      NothingSwept(db, Superseded, User, Some(root), now);
      moved := [];
      NothingFollows(ids);
    } else {
      Headed(ids);
      if ids[0] == root || db.tasks[ids[0]].state.IsTerminal() {
        moved := SupersedeEachEnds(db, root, ids[1..], now);
        FollowsLater(ids, moved);
      } else {
        var db1 := SupersedeOneEnds(db, root, ids, now);
        RestOfLoop(db, db1, ids, Superseded, User, Some(root), now);
        var rest := SupersedeEachEnds(db1, root, ids[1..], now);
        SweptThen(db, db1, SupersedeEach(db, root, ids, now).value, ids[0], rest, Superseded, User, Some(root), now);
        WorkLostThen(db.attempts, ids[0], rest, SupersedeEach(db, root, ids, now).value.attempts);
        FollowsFirst(ids, rest);
        moved := [ids[0]] + rest;
      }
    }
  }

  lemma SupersedeOneEnds(db: Db, root: TaskId, ids: seq<TaskId>, now: int) returns (db1: Db)
    requires |ids| > 0 && SupersedeEach(db, root, ids, now).Ok?
    requires ids[0] < |db.tasks| && ids[0] != root && !db.tasks[ids[0]].state.IsTerminal()
    ensures SupersedeEach(db, root, ids, now) == SupersedeEach(db1, root, ids[1..], now)
    ensures SweptOne(db, db1, ids[0], Superseded, User, Some(root), now)
    ensures db1.attempts == CloseAttempts(db.attempts, ids[0], None, LostLease)
  {
    hide Allowed, CloseAttempts;
    var mid := Transition(db, ids[0], Superseded, User, now).value;
    db1 := CloseWork(Put(mid, ids[0], mid.tasks[ids[0]].(supersededBy := Some(root))), ids[0], None, LostLease);
  }

  // ---- approval of children ----

  /** The children that wait are ready, with an event each; no other row moves. */
  ghost predicate ChildrenReleased(db: Db, db': Db, parent: TaskId, now: int) {
    && db'.attempts == db.attempts
    && exists moved: seq<TaskId> ::
      && Rising(moved) && Swept(db, db', moved, Ready, User, now) && Named(db, db', moved, None)
      && forall i: TaskId :: i in moved <==>
        i < |db.tasks| && db.tasks[i].parent == Some(parent) && db.tasks[i].state.AwaitingApproval?
  }

  lemma ApproveChildrenEnds(db: Db, parent: TaskId, actor: ActorClass, now: int)
    requires ApproveChildren(db, parent, actor, now).Ok?
    ensures ChildrenReleased(db, ApproveChildren(db, parent, actor, now).value, parent, now)
  {
    hide ApproveEach, Kids, Swept, Named, Rising, Follows;
    KidsAreRows(db, parent);
    var moved := ApproveEachEnds(db, Kids(db, parent), now);
    RisingFollows(Kids(db, parent), moved);
  }

  lemma KidsAreRows(db: Db, p: TaskId)
    ensures Distinct(Kids(db, p)) && AreRows(db.tasks, Kids(db, p))
    ensures forall i: TaskId :: i in Kids(db, p) <==> i < |db.tasks| && db.tasks[i].parent == Some(p)
    ensures Rising(Kids(db, p))
  {
    KidsAreListed(db.tasks, p, |db.tasks|);
    KidsRise(db.tasks, p, |db.tasks|);
  }

  // ---- a failed leaf ----

  /** The ready rows that depend on row `id`, wherever they are. */
  ghost predicate ReadyDependentsAre(db: Db, id: TaskId, ids: seq<TaskId>) {
    && Distinct(ids) && AreRows(db.tasks, ids) && Rising(ids)
    && forall i: TaskId :: i in ids <==> i < |db.tasks| && db.tasks[i].state.Ready? && id in db.tasks[i].dependsOn
  }

  /** The leaf has failed, every ready row that depends on it is blocked, and the pass follows. */
  ghost predicate FailsThenPass(db: Db, db': Db, id: TaskId, actor: ActorClass, now: int)
    requires Rooted(db)
  {
    && id < |db.tasks| == |db'.tasks|
    && Becomes(db.tasks[id], db'.tasks[id], Failed, now)
    && exists blocked ::
      && ReadyDependentsAre(db, id, blocked)
      && (forall i: TaskId | i < |db.tasks| && i in blocked :: Becomes(db.tasks[i], db'.tasks[i], Blocked, now))
      && PassedAbove(db, db', id, {id} + ToSet(blocked), now)
      && EventsThenPass(db.events, [MoveOf(id, db.tasks[id], Failed, actor)] + Moves(db.tasks, blocked, Blocked, RollupPass),
                        db'.events)
  }

  /** The dependents are siblings, so scanning the siblings finds them all. */
  lemma DependentsEnd(db: Db, db1: Db, id: TaskId, now: int) returns (blocked: seq<TaskId>)
    requires Inv(db) && OnlyRow(db, db1, id) && !db.tasks[id].state.Ready? && !db1.tasks[id].state.Ready?
    requires db1.tasks[id].parent == db.tasks[id].parent
    requires BlockDependents(db1, id, db.tasks[id].parent, now).Ok?
    ensures ReadyDependentsAre(db, id, blocked) && id !in blocked
    ensures forall i: TaskId | i in blocked && i < |db.tasks| :: db.tasks[i].parent.Some? && db.tasks[i].parent == db.tasks[id].parent
    ensures var db2 := BlockDependents(db1, id, db.tasks[id].parent, now).value;
      Swept(db1, db2, blocked, Blocked, RollupPass, now) && Named(db1, db2, blocked, None) && db2.attempts == db1.attempts
  {
    hide BlockEach, Kids, Swept, Named;
    var parent := db.tasks[id].parent;
    assert forall i: TaskId | i < |db.tasks| :: DepsAmongSiblings(db.tasks, db.tasks[i]);
    if parent.Some? {
      KidsAreRows(db1, parent.value);
      blocked := BlockEachEnds(db1, id, Kids(db1, parent.value), now);
      RisingFollows(Kids(db1, parent.value), blocked);
    } else {
      NothingSwept(db1, Blocked, RollupPass, None, now);
      blocked := [];
    }
    SweptIds(db1, BlockDependents(db1, id, parent, now).value, blocked, Blocked, RollupPass, now);
  }

  /** The tables once the leaf has failed and its dependents are blocked. */
  lemma AftermathRows(db: Db, db1: Db, db2: Db, id: TaskId, actor: ActorClass, blocked: seq<TaskId>, now: int)
    requires RowMoves(db, db1, id, Failed, actor, now) && id !in blocked && AreRows(db.tasks, blocked)
    requires Swept(db1, db2, blocked, Blocked, RollupPass, now) && Named(db1, db2, blocked, None)
    ensures |db2.tasks| == |db.tasks| && Becomes(db.tasks[id], db2.tasks[id], Failed, now)
    ensures forall i: TaskId | i < |db.tasks| && i in blocked :: Becomes(db.tasks[i], db2.tasks[i], Blocked, now)
    ensures forall i: TaskId | i < |db.tasks| && i !in {id} + ToSet(blocked) :: db2.tasks[i] == db.tasks[i]
    ensures forall i: TaskId | i < |db.tasks| :: db2.tasks[i].parent == db.tasks[i].parent
    ensures db2.events == db.events + ([MoveOf(id, db.tasks[id], Failed, actor)] + Moves(db.tasks, blocked, Blocked, RollupPass))
  {
    hide MoveOf;
    assert forall k | 0 <= k < |blocked| :: blocked[k] in blocked;
    MovesFrame(db.tasks, db1.tasks, blocked, Blocked, RollupPass);
    forall i: TaskId | i < |db.tasks|
      ensures SweptRow(db1.tasks[i], db2.tasks[i], i in blocked, Blocked, now)
    {
    }
  }

  lemma AftermathEnds(db: Db, db1: Db, id: TaskId, actor: ActorClass, now: int)
    requires Inv(db) && Rooted(db) && Rooted(db1) && RowMoves(db, db1, id, Failed, actor, now) && !db.tasks[id].state.Ready?
    requires db1.tasks[id].parent == db.tasks[id].parent
    requires BlockDependents(db1, id, db.tasks[id].parent, now).Ok?
    requires Rooted(BlockDependents(db1, id, db.tasks[id].parent, now).value)
    requires db.tasks[id].parent.Some? ==> db.tasks[id].parent.value < |BlockDependents(db1, id, db.tasks[id].parent, now).value.tasks|
    requires RollupFrom(BlockDependents(db1, id, db.tasks[id].parent, now).value, db.tasks[id].parent, now).Ok?
    ensures var db' := RollupFrom(BlockDependents(db1, id, db.tasks[id].parent, now).value, db.tasks[id].parent, now).value;
      FailsThenPass(db, db', id, actor, now) && db'.attempts == db1.attempts
  {
    hide Inv, BlockDependents, RollupFrom, Swept, Named, PassedAbove, EventsThenPass, OnChain, Moves, MoveOf, PassedOver;
    var up := db.tasks[id].parent;
    FailedIsNotReady(db, db1, id, actor, now);
    var blocked := DependentsEnd(db, db1, id, now);
    var db2 := BlockDependents(db1, id, up, now).value;
    AftermathRows(db, db1, db2, id, actor, blocked, now);
    PassEnds(db2, up, now);
    var db' := RollupFrom(db2, up, now).value;
    var own := {id} + ToSet(blocked);
    forall i | i in own
      ensures !OnChain(db, up, i)
    {
      if OnChain(db, up, i) {
        ChainIsBelow(db, up, i);
      }
    }
    PassFromWritten(db, db2, db', id, own, now);
    PassEvents(db.events, [MoveOf(id, db.tasks[id], Failed, actor)] + Moves(db.tasks, blocked, Blocked, RollupPass), db2, db', up, now);
  }

  lemma FailedIsNotReady(db: Db, db1: Db, id: TaskId, actor: ActorClass, now: int)
    requires RowMoves(db, db1, id, Failed, actor, now)
    ensures !db1.tasks[id].state.Ready?
  {
  }

  lemma FailEnds(db: Db, id: TaskId, owner: Owner, timedOut: bool, checked: bool, now: int)
    requires Inv(db) && Fail(db, id, owner, timedOut, checked, now).Ok?
    ensures FailsThenPass(db, Fail(db, id, owner, timedOut, checked, now).value, id, Worker, now)
  {
    hide Inv, Allowed, BlockDependents, RollupFrom, CloseAttempts, FailsThenPass;
    SoundTree(db);
    var outcome := if timedOut then TimedOut else Erred;
    var db1 := CloseWork(Transition(db, id, Failed, Worker, now).value, id, Some(owner), outcome);
    assert RowMoves(db, db1, id, Failed, Worker, now);
    AftermathEnds(db, db1, id, Worker, now);
  }

  lemma RejectionEnds(db: Db, id: TaskId, now: int)
    requires Inv(db) && ResolveReview(db, id, false, now).Ok?
    ensures FailsThenPass(db, ResolveReview(db, id, false, now).value, id, Poller, now)
    ensures ResolveReview(db, id, false, now).value.attempts == db.attempts
  {
    hide Inv, Allowed, BlockDependents, RollupFrom, FailsThenPass;
    SoundTree(db);
    var db1 := Transition(db, id, Failed, Poller, now).value;
    assert RowMoves(db, db1, id, Failed, Poller, now);
    AftermathEnds(db, db1, id, Poller, now);
  }

  lemma MergeEnds(db: Db, id: TaskId, now: int)
    requires Rooted(db) && ResolveReview(db, id, true, now).Ok?
    ensures MovesThenPass(db, ResolveReview(db, id, true, now).value, id, Done, Poller, now)
    ensures ResolveReview(db, id, true, now).value.attempts == db.attempts
  {
    hide Transition, RollupFrom, RowMoves, BlockDependents;
    TransitionEnds(db, id, Done, Poller, now);
    MoveAndPassEnds(db, db, id, Done, Poller, now);
  }

  // ---- cancel ----

  /** The live rows at or below row `id`, by path. */
  ghost predicate LiveBelow(db: Db, id: TaskId, i: TaskId)
    requires id < |db.tasks|
  {
    && i < |db.tasks| && db.tasks[id].path <= db.tasks[i].path
    && !db.tasks[i].state.Done? && !db.tasks[i].state.Cancelled? && !db.tasks[i].state.Superseded?
  }

  /** Shallower rows first, and rows of one depth by path. */
  ghost predicate ByDepthAndPath(db: Db, ids: seq<TaskId>) {
    && AreRows(db.tasks, ids)
    && forall a, b | 0 <= a < b < |ids| ::
      var p, q := db.tasks[ids[a]].path, db.tasks[ids[b]].path;
      |p| < |q| || (|p| == |q| && !Before(q, p))
  }

  lemma SubtreeFollows(db: Db, id: TaskId, moved: seq<TaskId>)
    requires id < |db.tasks| && Follows(Subtree(db, id), moved) && AreRows(db.tasks, moved) && AreRows(db.tasks, Subtree(db, id))
    ensures ByDepthAndPath(db, moved)
  {
    var keep := (i: TaskId) => i < |db.tasks| && InSubtree(db, id, i);
    SortIsInOrder(DepthPathKey(db.tasks), Select(keep, |db.tasks|));
    var ids := Subtree(db, id);
    hide Subtree, SortBy, Select;
    forall a, b | 0 <= a < b < |moved|
      ensures var p, q := db.tasks[moved[a]].path, db.tasks[moved[b]].path; |p| < |q| || (|p| == |q| && !Before(q, p))
    {
      assert StandInOrder(ids, moved[a], moved[b]);
      var i, j :| 0 <= i < j < |ids| && ids[i] == moved[a] && ids[j] == moved[b];
      var p, q := db.tasks[ids[i]].path, db.tasks[ids[j]].path;
      assert !Before(DepthPathKey(db.tasks)(ids[j]), DepthPathKey(db.tasks)(ids[i]));
      assert ([|q|] + q)[1..] == q && ([|p|] + p)[1..] == p;
    }
  }

  /** Every live row of the subtree is cancelled and its work lost, and the pass follows. */
  ghost predicate CancelledThenPass(db: Db, db': Db, id: TaskId, now: int)
    requires Rooted(db)
  {
    && id < |db.tasks| == |db'.tasks|
    && exists moved: seq<TaskId> ::
      && Distinct(moved) && ByDepthAndPath(db, moved)
      && (forall i: TaskId :: i in moved <==> LiveBelow(db, id, i))
      && (forall i: TaskId | i < |db.tasks| && i in moved :: Becomes(db.tasks[i], db'.tasks[i], Cancelled, now))
      && PassedAbove(db, db', id, ToSet(moved), now)
      && EventsThenPass(db.events, Moves(db.tasks, moved, Cancelled, User), db'.events)
      && WorkLost(db.attempts, ToSet(moved), db'.attempts)
  }

  /** The line above a row is shorter than the row's path, so no row of its subtree is on it. */
  lemma {:induction false} LineIsShorter(db: Db, p: Option<TaskId>, q: TaskId)
    requires TreeOk(db) && OnChain(db, p, q)
    ensures p.Some? && p.value < |db.tasks| && q < |db.tasks| && |db.tasks[q].path| <= |db.tasks[p.value].path|
    decreases if p.Some? then p.value + 1 else 0
  {
    assert NodeOk(db, p.value);
    if p.value != q {
      LineIsShorter(db, db.tasks[p.value].parent, q);
    }
  }

  lemma SubtreeIsOffLine(db: Db, id: TaskId, i: TaskId)
    requires TreeOk(db) && id < |db.tasks| && i < |db.tasks| && |db.tasks[id].path| <= |db.tasks[i].path|
    ensures !OnChain(db, db.tasks[id].parent, i)
  {
    assert NodeOk(db, id);
    if OnChain(db, db.tasks[id].parent, i) {
      LineIsShorter(db, db.tasks[id].parent, i);
    }
  }

  lemma SubtreeIsList(db: Db, id: TaskId)
    requires id < |db.tasks|
    ensures Distinct(Subtree(db, id)) && AreRows(db.tasks, Subtree(db, id))
    ensures forall i: TaskId :: i in Subtree(db, id) <==> i < |db.tasks| && db.tasks[id].path <= db.tasks[i].path
  {
    SubtreeMembers(db, id);
    var keep := (i: TaskId) => i < |db.tasks| && InSubtree(db, id, i);
    SelectMembers(keep, |db.tasks|);
    SortMembers(DepthPathKey(db.tasks), Select(keep, |db.tasks|));
    hide Subtree;
    assert forall k | 0 <= k < |Subtree(db, id)| :: Subtree(db, id)[k] in Subtree(db, id);
  }

  /** The tables after the loop, as the pass needs them. */
  lemma CancelledRows(db: Db, db1: Db, moved: seq<TaskId>, now: int)
    requires Swept(db, db1, moved, Cancelled, User, now) && Named(db, db1, moved, None)
    ensures |db1.tasks| == |db.tasks| && Distinct(moved) && AreRows(db.tasks, moved)
    ensures forall i: TaskId | i < |db.tasks| && i in moved :: Becomes(db.tasks[i], db1.tasks[i], Cancelled, now)
    ensures forall i: TaskId | i < |db.tasks| && i !in ToSet(moved) :: db1.tasks[i] == db.tasks[i]
    ensures forall i: TaskId | i < |db.tasks| :: db1.tasks[i].parent == db.tasks[i].parent
    ensures db1.events == db.events + Moves(db.tasks, moved, Cancelled, User)
  {
    forall i: TaskId | i < |db.tasks|
      ensures SweptRow(db.tasks[i], db1.tasks[i], i in moved, Cancelled, now)
    {
    }
  }

  lemma CancelEnds(db: Db, id: TaskId, actor: ActorClass, now: int)
    requires Inv(db) && Cancel(db, id, actor, now).Ok?
    ensures CancelledThenPass(db, Cancel(db, id, actor, now).value, id, now)
  {
    hide Inv, TreeOk, CancelEach, RollupFrom, Subtree, Swept, Named, WorkLost, PassedAbove, EventsThenPass, OnChain, Moves, PassedOver, Becomes;
    SoundTree(db);
    SubtreeIsList(db, id);
    var up := db.tasks[id].parent;
    var moved := CancelEachEnds(db, Subtree(db, id), now);
    var db1 := CancelEach(db, Subtree(db, id), now).value;
    CancelledRows(db, db1, moved, now);
    SubtreeFollows(db, id, moved);
    PassEnds(db1, up, now);
    var db' := RollupFrom(db1, up, now).value;
    forall i | i in ToSet(moved)
      ensures !OnChain(db, up, i)
    {
      SubtreeIsOffLine(db, id, i);
    }
    PassFromWritten(db, db1, db', id, ToSet(moved), now);
    PassEvents(db.events, Moves(db.tasks, moved, Cancelled, User), db1, db', up, now);
  }

  // ---- replan ----

  /** The node is planned afresh, its live descendants are superseded by it, and no other row moves. */
  ghost predicate PlannedOver(db: Db, db': Db, id: TaskId, now: int) {
    && id < |db.tasks| == |db'.tasks|
    && Becomes(db.tasks[id].(attempts := 0), db'.tasks[id], Decomposing, now)
    && exists moved: seq<TaskId> ::
      && Distinct(moved) && ByDepthAndPath(db, moved)
      && (forall i: TaskId :: i in moved <==> i != id && LiveBelow(db, id, i))
      && (forall i: TaskId | i < |db.tasks| && i != id ::
            if i in moved then Becomes(db.tasks[i].(supersededBy := Some(id)), db'.tasks[i], Superseded, now)
            else db'.tasks[i] == db.tasks[i])
      && db'.events == db.events + Moves(db.tasks, moved, Superseded, User) + [MoveOf(id, db.tasks[id], Decomposing, User)]
      && WorkLost(db.attempts, ToSet(moved), db'.attempts)
  }

  lemma SupersededRows(db: Db, db1: Db, id: TaskId, moved: seq<TaskId>, now: int)
    requires Swept(db, db1, moved, Superseded, User, now) && Named(db, db1, moved, Some(id)) && id !in moved && id < |db.tasks|
    ensures |db1.tasks| == |db.tasks| && Distinct(moved) && AreRows(db.tasks, moved) && db1.tasks[id] == db.tasks[id]
    ensures forall i: TaskId | i < |db.tasks| ::
      if i in moved then Becomes(db.tasks[i].(supersededBy := Some(id)), db1.tasks[i], Superseded, now)
      else db1.tasks[i] == db.tasks[i]
    ensures db1.events == db.events + Moves(db.tasks, moved, Superseded, User)
  {
    assert SweptRow(db.tasks[id], db1.tasks[id], id in moved, Superseded, now);
    forall i: TaskId | i < |db.tasks|
      ensures SweptRow(db.tasks[i], db1.tasks[i], i in moved, Superseded, now)
    {
    }
  }

  lemma ReplanEnds(db: Db, id: TaskId, actor: ActorClass, now: int)
    requires Replan(db, id, actor, now).Ok?
    ensures PlannedOver(db, Replan(db, id, actor, now).value, id, now)
  {
    hide SupersedeEach, Subtree, Swept, Named, WorkLost, Moves, Transition;
    SubtreeIsList(db, id);
    var moved := SupersedeEachEnds(db, id, Subtree(db, id), now);
    var db1 := SupersedeEach(db, id, Subtree(db, id), now).value;
    SupersededRows(db, db1, id, moved, now);
    SubtreeFollows(db, id, moved);
    TransitionEnds(db1, id, Decomposing, User, now);
  }
}
