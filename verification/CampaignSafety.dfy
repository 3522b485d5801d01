/**
 * Every protocol keeps the invariants, so every run does.
 *
 * The single writes come first, then the loops that write several rows, then the protocols one by one, and
 * `ApplyKeeps` at the end covers them all. The lemmas called `...Unfolds` only take a long protocol apart
 * at the point where its guards have passed.
 *
 * A loop over rows is proved by induction on its list of ids. That needs the rows still to come to be
 * untouched by the rows already written: the list has no repeats, and a write touches no other row's
 * state.
 */
module CampaignSafety {
  import opened Outcomes
  import opened Collections
  import opened CampaignRules
  import opened CampaignTables
  import opened CampaignProtocols
  import opened CampaignInvariants

  // ---- lists of ids ----

  lemma {:induction false} SelectMembers(keep: TaskId -> bool, n: nat)
    ensures forall x: TaskId :: x in Select(keep, n) <==> x < n && keep(x)
    ensures Distinct(Select(keep, n))
  {
    if n > 0 {
      SelectMembers(keep, n - 1);
      assert n - 1 !in Select(keep, n - 1);
    }
  }

  lemma {:induction false} InsertMembers(key: TaskId -> seq<nat>, id: TaskId, sorted: seq<TaskId>)
    requires Distinct(sorted) && id !in sorted
    ensures forall x :: x in InsertBy(key, id, sorted) <==> x == id || x in sorted
    ensures Distinct(InsertBy(key, id, sorted))
  {
    if |sorted| > 0 && !Before(key(id), key(sorted[0])) {
      InsertMembers(key, id, sorted[1..]);
      assert sorted[0] !in InsertBy(key, id, sorted[1..]);
      assert forall x :: x in sorted <==> x == sorted[0] || x in sorted[1..];
    }
  }

  lemma {:induction false} SortMembers(key: TaskId -> seq<nat>, ids: seq<TaskId>)
    requires Distinct(ids)
    ensures forall x :: x in SortBy(key, ids) <==> x in ids
    ensures Distinct(SortBy(key, ids))
  {
    if |ids| > 0 {
      var front := ids[..|ids| - 1];
      SortMembers(key, front);
      assert ids[|ids| - 1] !in front;
      InsertMembers(key, ids[|ids| - 1], SortBy(key, front));
      assert forall x :: x in ids <==> x in front || x == ids[|ids| - 1];
    }
  }

  // ---- sorting by a key ----

  /** No id comes after one whose key is larger. */
  ghost predicate InOrder(key: TaskId -> seq<nat>, ids: seq<TaskId>) {
    forall a, b | 0 <= a < b < |ids| :: !Before(key(ids[b]), key(ids[a]))
  }

  lemma {:induction false} BeforeChains(a: seq<nat>, b: seq<nat>, c: seq<nat>)
    requires !Before(b, a) && !Before(c, b)
    ensures !Before(c, a)
  {
    if |a| > 0 && |b| > 0 && |c| > 0 && a[0] == b[0] == c[0] {
      BeforeChains(a[1..], b[1..], c[1..]);
    }
  }

  lemma {:induction false} BeforeIsOneWay(a: seq<nat>, b: seq<nat>)
    requires Before(a, b)
    ensures !Before(b, a)
  {
    if |a| > 0 && a[0] == b[0] {
      BeforeIsOneWay(a[1..], b[1..]);
    }
  }

  lemma {:induction false} InsertKeepsOrder(key: TaskId -> seq<nat>, id: TaskId, sorted: seq<TaskId>)
    requires InOrder(key, sorted)
    ensures InOrder(key, InsertBy(key, id, sorted))
    ensures forall x | x in InsertBy(key, id, sorted) :: x == id || x in sorted
  {
    var r := InsertBy(key, id, sorted);
    if |sorted| == 0 {
    } else if Before(key(id), key(sorted[0])) {
      BeforeIsOneWay(key(id), key(sorted[0]));
      forall b | 0 < b < |r|
        ensures !Before(key(r[b]), key(id))
      {
        assert r[b] == sorted[b - 1];
        assert b > 1 ==> !Before(key(sorted[b - 1]), key(sorted[0]));
        if b == 1 {
          BeforeIsOneWay(key(id), key(r[b]));
        } else {
          BeforeChains(key(id), key(sorted[0]), key(r[b]));
        }
      }
    } else {
      var rest := InsertBy(key, id, sorted[1..]);
      InsertKeepsOrder(key, id, sorted[1..]);
      forall b | 0 <= b < |rest|
        ensures !Before(key(rest[b]), key(sorted[0]))
      {
        assert rest[b] in rest;
      }
    }
  }

  lemma {:induction false} SortIsInOrder(key: TaskId -> seq<nat>, ids: seq<TaskId>)
    ensures InOrder(key, SortBy(key, ids))
  {
    if |ids| > 0 {
      SortIsInOrder(key, ids[..|ids| - 1]);
      InsertKeepsOrder(key, ids[|ids| - 1], SortBy(key, ids[..|ids| - 1]));
    }
  }

  // ---- single writes ----

  lemma TransitionKeeps(db: Db, id: TaskId, to: TaskState, actor: ActorClass, now: int)
    requires Inv(db) && Transition(db, id, to, actor, now).Ok?
    requires db.tasks[id].state.IsLeased() == to.IsLeased()
    ensures Inv(Transition(db, id, to, actor, now).value)
  {
    assert LeaseOk(db.tasks[id]);
    WriteKeeps(db, id, Moved(db.tasks[id], to, now), actor, Plain);
  }

  /** A transition out of any lease, with the work it leaves behind closed. */
  lemma ReleasingKeeps(db: Db, id: TaskId, to: TaskState, actor: ActorClass, now: int, owner: Option<Owner>, outcome: AttemptOutcome)
    requires Inv(db) && Transition(db, id, to, actor, now).Ok?
    requires !to.IsLeased() && !outcome.Pending?
    requires owner.None? || owner == db.tasks[id].claimedBy
    ensures Inv(CloseWork(Transition(db, id, to, actor, now).value, id, owner, outcome))
  {
    ReleaseKeeps(db, id, Moved(db.tasks[id], to, now), actor, owner, outcome);
  }

  /** The rollup pass is never refused, and keeps everything. */
  lemma {:induction false} RollupKeeps(db: Db, parent: Option<TaskId>, now: int)
    requires Inv(db)
    requires parent.Some? ==> parent.value < |db.tasks| && !db.tasks[parent.value].kind.Leaf?
    ensures RollupFrom(db, parent, now).Ok?
    ensures Inv(RollupFrom(db, parent, now).value)
    decreases if parent.Some? then parent.value + 1 else 0
  {
    if parent.Some? {
      var p := db.tasks[parent.value];
      var next := Rollup(p.state, KidStates(db, parent.value));
      if next.Some? {
        RollupIsAllowed(p.state, KidStates(db, parent.value), p.kind);
        TransitionKeeps(db, parent.value, next.value, RollupPass, now);
        var db1 := Transition(db, parent.value, next.value, RollupPass, now).value;
        assert NodeOk(db, parent.value);
        RollupKeeps(db1, p.parent, now);
      }
    }
  }

  lemma ParentIsInner(db: Db, id: TaskId)
    requires TreeOk(db) && id < |db.tasks|
    ensures db.tasks[id].parent.Some? ==>
      db.tasks[id].parent.value < id && !db.tasks[db.tasks[id].parent.value].kind.Leaf?
  {
    assert NodeOk(db, id);
  }

  /** What every write in place leaves alone: the tree, the kinds and the dependencies. */
  ghost predicate SamePlaces(db: Db, db': Db) {
    && SameShape(db.tasks, db'.tasks)
    && forall i: TaskId | i < |db.tasks| ::
      db'.tasks[i].kind == db.tasks[i].kind && db'.tasks[i].dependsOn == db.tasks[i].dependsOn
  }

  lemma SamePlacesThen(a: Db, b: Db, c: Db)
    requires SamePlaces(a, b) && SamePlaces(b, c)
    ensures SamePlaces(a, c)
  {
  }

  /** A transition, whatever it closes as well, moves no row. */
  lemma TransitionStays(db: Db, id: TaskId, to: TaskState, actor: ActorClass, now: int)
    requires Transition(db, id, to, actor, now).Ok?
    ensures SamePlaces(db, Transition(db, id, to, actor, now).value)
  {
  }

  lemma RowsDecidePlaces(a: Db, b: Db, c: Db)
    requires SamePlaces(a, b) && b.tasks == c.tasks
    ensures SamePlaces(a, c)
  {
  }

  // ---- loops over rows ----

  lemma {:induction false} BlockEachKeeps(db: Db, leaf: TaskId, sibs: seq<TaskId>, now: int)
    requires Inv(db) && BlockEach(db, leaf, sibs, now).Ok?
    ensures Inv(BlockEach(db, leaf, sibs, now).value)
    ensures SamePlaces(db, BlockEach(db, leaf, sibs, now).value)
    decreases |sibs|
  {
    hide Inv;
    if |sibs| > 0 {
      var s := db.tasks[sibs[0]];
      if s.state.Ready? && leaf in s.dependsOn {
        hide SamePlaces;
        var db1 := Transition(db, sibs[0], Blocked, RollupPass, now).value;
        TransitionKeeps(db, sibs[0], Blocked, RollupPass, now);
        TransitionStays(db, sibs[0], Blocked, RollupPass, now);
        BlockEachKeeps(db1, leaf, sibs[1..], now);
        SamePlacesThen(db, db1, BlockEach(db, leaf, sibs, now).value);
      } else {
        BlockEachKeeps(db, leaf, sibs[1..], now);
      }
    }
  }

  lemma {:induction false} ApproveEachKeeps(db: Db, ids: seq<TaskId>, now: int)
    requires Inv(db) && ApproveEach(db, ids, now).Ok?
    ensures Inv(ApproveEach(db, ids, now).value)
    decreases |ids|
  {
    if |ids| > 0 {
      if db.tasks[ids[0]].state.AwaitingApproval? {
        TransitionKeeps(db, ids[0], Ready, User, now);
        ApproveEachKeeps(Transition(db, ids[0], Ready, User, now).value, ids[1..], now);
      } else {
        ApproveEachKeeps(db, ids[1..], now);
      }
    }
  }

  lemma ReapOneKeeps(db: Db, id: TaskId, now: int)
    requires Inv(db) && ReapOne(db, id, now).Ok?
    ensures Inv(ReapOne(db, id, now).value)
  {
    hide Inv, Write, CloseWork;
    var t := db.tasks[id];
    var row := t.(state := Ready, version := t.version + 1, updatedAt := now, claimedBy := None, leaseUntil := None);
    ReleaseKeeps(db, id, row, Reaper, None, LostLease);
  }

  lemma {:induction false} ReapEachKeeps(db: Db, ids: seq<TaskId>, now: int)
    requires Inv(db) && ReapEach(db, ids, now).Ok?
    ensures Inv(ReapEach(db, ids, now).value)
    decreases |ids|
  {
    if |ids| > 0 {
      ReapOneKeeps(db, ids[0], now);
      ReapEachKeeps(ReapOne(db, ids[0], now).value, ids[1..], now);
    }
  }

  lemma {:induction false} ReleaseEachKeeps(db: Db, ids: seq<TaskId>, now: int)
    requires Inv(db) && Distinct(ids)
    requires forall x | x in ids :: x < |db.tasks| && db.tasks[x].state.Decomposing?
    ensures ReleaseEach(db, ids, now).Ok?
    ensures Inv(ReleaseEach(db, ids, now).value)
    decreases |ids|
  {
    if |ids| > 0 {
      assert ids[0] in ids && ids[0] !in ids[1..];
      assert forall x | x in ids[1..] :: x in ids;
      var t := db.tasks[ids[0]];
      var row := t.(state := Ready, version := t.version + 1, updatedAt := now);
      assert LeaseOk(t);
      WriteKeeps(db, ids[0], row, Reaper, Plain);
      ReleaseEachKeeps(Write(db, ids[0], row, Decomposing, Reaper, Plain), ids[1..], now);
    }
  }

  /** No planner used any of the keys that the store mints for these rows, the first of them at `position`. */
  predicate KeysAreFree(db: Db, ids: seq<TaskId>, position: nat, now: int) {
    |ids| > 0 ==>
      && (ids[0] < |db.tasks| ==> !PlannerHolds(db, MintedKey(db, ids[0], position, now)))
      && KeysAreFree(db, ids[1..], position + 1, now)
  }

  lemma {:induction false} ClaimEachKeeps(db: Db, ids: seq<TaskId>, position: nat, owner: Owner, lease: int, now: int)
    requires Inv(db) && Distinct(ids)
    requires forall x | x in ids :: x < |db.tasks| && db.tasks[x].state.Ready? && db.tasks[x].kind.Leaf?
    ensures ClaimEach(db, ids, position, owner, lease, now).Ok? <==> KeysAreFree(db, ids, position, now)
    ensures ClaimEach(db, ids, position, owner, lease, now).Ok? ==> Inv(ClaimEach(db, ids, position, owner, lease, now).value)
    decreases |ids|
  {
    if |ids| > 0 {
      assert ids[0] in ids && ids[0] !in ids[1..];
      assert forall x | x in ids[1..] :: x in ids;
      ClaimKeeps(db, ids[0], position, owner, lease, now);
      if ClaimOne(db, ids[0], position, owner, lease, now).Ok? {
        var db1 := ClaimOne(db, ids[0], position, owner, lease, now).value;
        ClaimEachKeeps(db1, ids[1..], position + 1, owner, lease, now);
        KeysStayFree(db, db1, ids[1..], position + 1, now);
      }
    }
  }

  /** A claimed row's attempt is not a planner's, so the keys still to come are as free as before. */
  lemma {:induction false} KeysStayFree(db: Db, db1: Db, ids: seq<TaskId>, position: nat, now: int)
    requires forall x | x in ids :: x < |db.tasks| == |db1.tasks| && db.tasks[x] == db1.tasks[x]
    requires |db1.attempts| == |db.attempts| + 1 && db.attempts <= db1.attempts
    requires db1.attempts[|db.attempts|].kind.Work?
    ensures KeysAreFree(db, ids, position, now) <==> KeysAreFree(db1, ids, position, now)
    decreases |ids|
  {
    if |ids| > 0 {
      assert ids[0] in ids;
      assert forall x | x in ids[1..] :: x in ids;
      KeysStayFree(db, db1, ids[1..], position + 1, now);
      var key := MintedKey(db, ids[0], position, now);
      assert forall i | 0 <= i < |db.attempts| :: db1.attempts[i] == db.attempts[i];
      assert PlannerHolds(db, key) <==> PlannerHolds(db1, key);
    }
  }

  /**
   * The claim takes the first claimable rows that nobody has locked, in queue order, and leaves one out only
   * when the limit is met by rows that the queue does not place after it.
   */
  lemma CandidatesAreClaimable(db: Db, limit: nat, busy: set<TaskId>)
    ensures var chosen := Candidates(db, limit, busy);
      && Distinct(chosen) && |chosen| <= limit && InOrder(QueueKey(db.tasks), chosen)
      && (forall x | x in chosen :: Claimable(db, x) && x !in busy)
      && forall x: TaskId | Claimable(db, x) && x !in busy && x !in chosen ::
        |chosen| == limit && forall c | c in chosen :: !Before(QueueKey(db.tasks)(x), QueueKey(db.tasks)(c))
  {
    hide Select, SortBy, Before;
    var key := QueueKey(db.tasks);
    var keep := (i: TaskId) => Claimable(db, i) && i !in busy;
    var all := Select(keep, |db.tasks|);
    var queue := SortBy(key, all);
    SelectMembers(keep, |db.tasks|);
    SortMembers(key, all);
    SortIsInOrder(key, all);
    var chosen := Candidates(db, limit, busy);
    assert forall x | x in chosen :: x in queue;
    assert forall x | x in queue :: keep(x);
    forall x: TaskId | Claimable(db, x) && x !in busy && x !in chosen
      ensures |chosen| == limit && forall c | c in chosen :: !Before(key(x), key(c))
    {
      assert keep(x) && x in queue;
      var j :| 0 <= j < |queue| && queue[j] == x;
      assert j >= limit;
    }
  }

  /** A claim commits if and only if no planner used a key that the store mints for it. */
  lemma ClaimIsExact(db: Db, limit: nat, owner: Owner, leaseSecs: int, busy: set<TaskId>, now: int)
    requires Inv(db)
    ensures Claim(db, limit, owner, leaseSecs, busy, now).Ok?
      <==> limit == 0 || KeysAreFree(db, Candidates(db, limit, busy), 0, now)
  {
    if limit > 0 {
      CandidatesAreClaimable(db, limit, busy);
      ClaimEachKeeps(db, Candidates(db, limit, busy), 0, owner, ClampLease(leaseSecs), now);
    }
  }

  lemma {:induction false} CancelEachKeeps(db: Db, ids: seq<TaskId>, now: int)
    requires Inv(db) && CancelEach(db, ids, now).Ok?
    ensures Inv(CancelEach(db, ids, now).value)
    ensures SamePlaces(db, CancelEach(db, ids, now).value)
    decreases |ids|
  {
    if |ids| > 0 {
      if db.tasks[ids[0]].state.IsTerminal() {
        CancelEachKeeps(db, ids[1..], now);
      } else {
        hide Inv, SamePlaces;
        var db1 := Transition(db, ids[0], Cancelled, User, now).value;
        var db2 := CloseWork(db1, ids[0], None, LostLease);
        ReleasingKeeps(db, ids[0], Cancelled, User, now, None, LostLease);
        TransitionStays(db, ids[0], Cancelled, User, now);
        RowsDecidePlaces(db, db1, db2);
        CancelEachKeeps(db2, ids[1..], now);
        SamePlacesThen(db, db2, CancelEach(db, ids, now).value);
      }
    }
  }

  /** One superseded row: the transition, the back reference and the closed work in one write. */
  lemma SupersedeOneKeeps(db: Db, root: TaskId, id: TaskId, now: int)
    requires Inv(db) && Transition(db, id, Superseded, User, now).Ok?
    ensures var db1 := Transition(db, id, Superseded, User, now).value;
      var db2 := CloseWork(Put(db1, id, db1.tasks[id].(supersededBy := Some(root))), id, None, LostLease);
      && Inv(db2) && SamePlaces(db, db2) && |db2.tasks| == |db.tasks|
      && forall i: TaskId | i < |db.tasks| && i != id :: db2.tasks[i] == db.tasks[i]
  {
    hide Inv;
    var db1 := Transition(db, id, Superseded, User, now).value;
    var row := Moved(db.tasks[id], Superseded, now).(supersededBy := Some(root));
    ReleaseKeeps(db, id, row, User, None, LostLease);
    assert db.tasks[id := db1.tasks[id]][id := row] == db.tasks[id := row];
  }

  lemma {:induction false} SupersedeEachKeeps(db: Db, root: TaskId, ids: seq<TaskId>, now: int)
    requires Inv(db) && root < |db.tasks| && SupersedeEach(db, root, ids, now).Ok?
    ensures Inv(SupersedeEach(db, root, ids, now).value)
    ensures SamePlaces(db, SupersedeEach(db, root, ids, now).value)
    ensures SupersedeEach(db, root, ids, now).value.tasks[root] == db.tasks[root]
    decreases |ids|
  {
    if |ids| > 0 {
      hide Inv;
      if ids[0] == root || db.tasks[ids[0]].state.IsTerminal() {
        SupersedeEachKeeps(db, root, ids[1..], now);
      } else {
        hide SamePlaces, CloseWork;
        SupersedeOneKeeps(db, root, ids[0], now);
        var db1 := Transition(db, ids[0], Superseded, User, now).value;
        var db2 := CloseWork(Put(db1, ids[0], db1.tasks[ids[0]].(supersededBy := Some(root))), ids[0], None, LostLease);
        SupersedeEachKeeps(db2, root, ids[1..], now);
        SamePlacesThen(db, db2, SupersedeEach(db, root, ids, now).value);
      }
    }
  }

  // ---- decomposition: child numbering ----

  lemma {:induction false} MaxOrdinalIsCount(db: Db, kids: seq<TaskId>)
    requires forall j | 0 <= j < |kids| :: kids[j] < |db.tasks| && db.tasks[kids[j]].Ordinal() == j + 1
    ensures MaxOrdinal(db, kids) == |kids|
  {
    if |kids| > 0 {
      MaxOrdinalIsCount(db, kids[..|kids| - 1]);
    }
  }

  /** After the rows of `a` come the batch's children from the `i`th on. */
  ghost predicate BatchFollows(a: seq<Task>, c: seq<Task>, id: TaskId, state: TaskState, maxOrd: nat, base: TaskId,
                               deps: seq<seq<nat>>, i: nat, now: int)
    requires id < |a| && i <= |deps|
  {
    && a <= c && |c| == |a| + |deps| - i
    && forall k | i <= k < |deps| :: c[|a| + k - i] == NewKid(a[id], id, a[id].path + [maxOrd + k + 1], state, base, deps[k], now)
  }

  /**
   * A batch that fits under the cap of 8 is always inserted: the ordinal `maxOrd + i + 1` stays in
   * the grammar, and the new children are numbered on from the old ones.
   */
  lemma {:induction false} AddKidsKeeps(db: Db, id: TaskId, state: TaskState, maxOrd: nat, base: TaskId, deps: seq<seq<nat>>, i: nat, now: int)
    requires Core(db) && id < |db.tasks| && i <= |deps|
    requires !db.tasks[id].kind.Leaf? && |db.tasks[id].path| <= 6
    requires |Kids(db, id)| == maxOrd + i && maxOrd + |deps| <= 8
    requires !state.IsLeased()
    ensures AddKids(db, id, state, maxOrd, base, deps, i, now).Ok?
    ensures var db' := AddKids(db, id, state, maxOrd, base, deps, i, now).value;
      && Core(db') && db'.attempts == db.attempts
      && |Kids(db', id)| == maxOrd + |deps|
      && BatchFollows(db.tasks, db'.tasks, id, state, maxOrd, base, deps, i, now)
    decreases |deps| - i
  {
    hide Core, Kids, NewKid;
    if i < |deps| {
      hide BatchFollows;
      var db1 := AddKidKeeps(db, id, state, maxOrd, base, deps, i, now);
      AddKidsKeeps(db1, id, state, maxOrd, base, deps, i + 1, now);
      BatchListed(db.tasks, db1.tasks, AddKids(db1, id, state, maxOrd, base, deps, i + 1, now).value.tasks,
                  id, state, maxOrd, base, deps, i, now);
    }
  }

  /** The first of the new rows, and then the others. */
  lemma BatchListed(a: seq<Task>, b: seq<Task>, c: seq<Task>, id: TaskId, state: TaskState, maxOrd: nat, base: TaskId,
                    deps: seq<seq<nat>>, i: nat, now: int)
    requires id < |a| && i < |deps|
    requires b == a + [NewKid(a[id], id, a[id].path + [maxOrd + i + 1], state, base, deps[i], now)]
    requires BatchFollows(b, c, id, state, maxOrd, base, deps, i + 1, now)
    ensures BatchFollows(a, c, id, state, maxOrd, base, deps, i, now)
  {
    hide NewKid;
    assert a <= b;
    assert b[|a|] == c[|a|];
    forall k | i < k < |deps|
      ensures c[|a| + k - i] == NewKid(a[id], id, a[id].path + [maxOrd + k + 1], state, base, deps[k], now)
    {
      assert |b| + k - (i + 1) == |a| + k - i;
    }
  }

  /** One child of the batch. */
  lemma AddKidKeeps(db: Db, id: TaskId, state: TaskState, maxOrd: nat, base: TaskId, deps: seq<seq<nat>>, i: nat, now: int)
    returns (db1: Db)
    requires Core(db) && id < |db.tasks| && i < |deps|
    requires !db.tasks[id].kind.Leaf? && |db.tasks[id].path| <= 6
    requires |Kids(db, id)| == maxOrd + i && maxOrd + |deps| <= 8
    requires !state.IsLeased()
    ensures Core(db1) && |Kids(db1, id)| == maxOrd + i + 1 && db1.attempts == db.attempts
    ensures db1.tasks == db.tasks + [NewKid(db.tasks[id], id, db.tasks[id].path + [maxOrd + i + 1], state, base, deps[i], now)]
    ensures AddKids(db, id, state, maxOrd, base, deps, i, now) == AddKids(db1, id, state, maxOrd, base, deps, i + 1, now)
  {
    hide Core, Kids;
    var kid := NewKid(db.tasks[id], id, db.tasks[id].path + [maxOrd + i + 1], state, base, deps[i], now);
    KidKeeps(db, kid, Planner);
    db1 := InsertTask(db, kid, Planner);
  }

  lemma BatchGrows(a: seq<Task>, c: seq<Task>, id: TaskId, state: TaskState, maxOrd: nat, base: TaskId,
                   deps: seq<seq<nat>>, now: int)
    requires id < |a| && BatchFollows(a, c, id, state, maxOrd, base, deps, 0, now)
    ensures a <= c && |c| == |a| + |deps|
  {
  }

  /** One row of a whole batch. */
  lemma BatchRow(a: seq<Task>, c: seq<Task>, id: TaskId, state: TaskState, maxOrd: nat, base: TaskId,
                 deps: seq<seq<nat>>, now: int, k: nat)
    requires id < |a| && k < |deps| && BatchFollows(a, c, id, state, maxOrd, base, deps, 0, now)
    ensures |c| == |a| + |deps| && c[|a| + k] == NewKid(a[id], id, a[id].path + [maxOrd + k + 1], state, base, deps[k], now)
  {
    hide NewKid;
    assert |a| + k - 0 == |a| + k;
  }

  lemma BatchDepsAreSiblings(db: Db, db': Db, id: TaskId, deps: seq<seq<nat>>, state: TaskState, maxOrd: nat, now: int)
    requires DepsOk(db.tasks) && id < |db.tasks|
    requires DepsInBatch(deps) && BatchFollows(db.tasks, db'.tasks, id, state, maxOrd, |db.tasks|, deps, 0, now)
    ensures DepsOk(db'.tasks)
  {
    hide BatchFollows;
    BatchGrows(db.tasks, db'.tasks, id, state, maxOrd, |db.tasks|, deps, now);
    forall c: TaskId | |db.tasks| <= c < |db'.tasks|
      ensures DepsAmongSiblings(db'.tasks, db'.tasks[c])
    {
      var k := c - |db.tasks|;
      BatchRow(db.tasks, db'.tasks, id, state, maxOrd, |db.tasks|, deps, now, k);
      forall d | d in db'.tasks[c].dependsOn
        ensures d < |db'.tasks| && db'.tasks[d].parent == Some(id)
      {
        var j :| 0 <= j < |deps[k]| && db'.tasks[c].dependsOn[j] == d;
        assert deps[k][j] in deps[k];
        var m := deps[k][j] - 1;
        assert d == |db.tasks| + m && 0 <= m < |deps|;
        BatchRow(db.tasks, db'.tasks, id, state, maxOrd, |db.tasks|, deps, now, m);
      }
    }
    DepsFrame(db.tasks, db'.tasks);
  }

  lemma KidsAreCounted(db: Db, id: TaskId)
    requires TreeOk(db) && id < |db.tasks|
    ensures MaxOrdinal(db, Kids(db, id)) == |Kids(db, id)|
  {
    assert NodeOk(db, id);
    MaxOrdinalIsCount(db, Kids(db, id));
  }

  /** A batch under a node that is being decomposed. */
  lemma BatchAdds(db: Db, id: TaskId, deps: seq<seq<nat>>, state: TaskState, now: int)
    requires Inv(db) && id < |db.tasks|
    requires !db.tasks[id].kind.Leaf? && db.tasks[id].state.Decomposing? && |db.tasks[id].path| <= 6
    requires |Kids(db, id)| + |deps| <= 8 && DepsInBatch(deps) && !state.IsLeased()
    ensures MaxOrdinal(db, Kids(db, id)) == |Kids(db, id)|
    ensures var added := AddKids(db, id, state, |Kids(db, id)|, |db.tasks|, deps, 0, now);
      && added.Ok? && Inv(added.value) && |added.value.tasks| > id && added.value.tasks[id] == db.tasks[id]
      && BatchFollows(db.tasks, added.value.tasks, id, state, |Kids(db, id)|, |db.tasks|, deps, 0, now)
      && added.value.attempts == db.attempts
  {
    hide TreeOk, LogOk, LeasesOk, LedgerOk, KeysOk, PoliciesOk, DepsOk, Kids, AddKids, NewKid, MaxOrdinal, DepsInBatch;
    var kids := Kids(db, id);
    KidsAreCounted(db, id);
    AddKidsKeeps(db, id, state, |kids|, |db.tasks|, deps, 0, now);
    var db2 := AddKids(db, id, state, |kids|, |db.tasks|, deps, 0, now).value;
    BatchDepsAreSiblings(db, db2, id, deps, state, |kids|, now);
  }

  /** A batch, and then the node's own transition. */
  lemma BatchKeeps(db: Db, id: TaskId, deps: seq<seq<nat>>, state: TaskState, now: int)
    requires Inv(db) && id < |db.tasks|
    requires !db.tasks[id].kind.Leaf? && db.tasks[id].state.Decomposing? && |db.tasks[id].path| <= 6
    requires |Kids(db, id)| + |deps| <= 8 && DepsInBatch(deps) && !state.IsLeased()
    ensures MaxOrdinal(db, Kids(db, id)) == |Kids(db, id)|
    ensures var added := AddKids(db, id, state, |Kids(db, id)|, |db.tasks|, deps, 0, now);
      && added.Ok? && Inv(added.value) && |added.value.tasks| > id && added.value.tasks[id] == db.tasks[id]
      && BatchFollows(db.tasks, added.value.tasks, id, state, |Kids(db, id)|, |db.tasks|, deps, 0, now)
      && added.value.attempts == db.attempts
      && Transition(added.value, id, Decomposed, Planner, now).Ok?
      && Inv(Transition(added.value, id, Decomposed, Planner, now).value)
  {
    hide Inv, Kids, AddKids, MaxOrdinal, DepsInBatch, BatchFollows;
    BatchAdds(db, id, deps, state, now);
    TransitionKeeps(AddKids(db, id, state, |Kids(db, id)|, |db.tasks|, deps, 0, now).value, id, Decomposed, Planner, now);
  }

  /** What a committed decomposition has checked, and what it then wrote. */
  lemma DecomposeUnfolds(db: Db, id: TaskId, expected: nat, key: IdemKey, tokens: nat, deps: seq<seq<nat>>, checked: bool, now: int)
    returns (db1: Db, state: TaskState)
    requires Decompose(db, id, expected, key, tokens, deps, checked, now).Ok?
    ensures id < |db.tasks| && !db.tasks[id].kind.Leaf? && db.tasks[id].state.Decomposing?
    ensures |db.tasks[id].path| <= 6 && |Kids(db, id)| + |deps| <= 8 && |deps| >= 1 && DepsInBatch(deps)
    ensures state == AwaitingApproval || state == Ready
    ensures db1 == db.(attempts := db.attempts + [Attempt(id, Planning, key, None, Split, tokens)])
    ensures var added := AddKids(db1, id, state, MaxOrdinal(db, Kids(db, id)), |db.tasks|, deps, 0, now);
      && added.Ok?
      && Decompose(db, id, expected, key, tokens, deps, checked, now) == Transition(added.value, id, Decomposed, Planner, now)
  {
    hide Kids, MaxOrdinal, DepsInBatch, IdemExists, CampaignNodes, AddKids, Transition;
    db1 := db.(attempts := db.attempts + [Attempt(id, Planning, key, None, Split, tokens)]);
    var policy := PolicyOf(db, db.tasks[id].campaign).value;
    state := if policy.Gated(db.tasks[id].Depth() + 1) then AwaitingApproval else Ready;
  }

  /** Once the caps are checked, a decomposition cannot fail, and keeps every invariant. */
  lemma DecomposeKeeps(db: Db, id: TaskId, expected: nat, key: IdemKey, tokens: nat, deps: seq<seq<nat>>, checked: bool, now: int)
    requires Inv(db) && Decompose(db, id, expected, key, tokens, deps, checked, now).Ok?
    ensures Inv(Decompose(db, id, expected, key, tokens, deps, checked, now).value)
  {
    var db1, state := DecomposeUnfolds(db, id, expected, key, tokens, deps, checked, now);
    PlanAttemptKeeps(db, Attempt(id, Planning, key, None, Split, tokens));
    assert Kids(db1, id) == Kids(db, id);
    MaxOrdinalFrame(db, db1, Kids(db, id));
    BatchKeeps(db1, id, deps, state, now);
  }

  lemma {:induction false} MaxOrdinalFrame(db: Db, db': Db, kids: seq<TaskId>)
    requires db.tasks == db'.tasks && forall i | 0 <= i < |kids| :: kids[i] < |db.tasks|
    ensures MaxOrdinal(db, kids) == MaxOrdinal(db', kids)
  {
    if |kids| > 0 {
      MaxOrdinalFrame(db, db', kids[..|kids| - 1]);
    }
  }

  lemma MarkLeafKeeps(db: Db, id: TaskId, expected: nat, key: IdemKey, tokens: nat, checked: bool, now: int)
    requires Inv(db) && MarkLeaf(db, id, expected, key, tokens, checked, now).Ok?
    ensures Inv(MarkLeaf(db, id, expected, key, tokens, checked, now).value)
  {
    var t := db.tasks[id];
    var a := Attempt(id, Planning, key, None, Execute, tokens);
    PlanAttemptKeeps(db, a);
    var db1 := InsertAttempt(db, a).value;
    var policy := PolicyOf(db, t.campaign).value;
    var to := if policy.Gated(t.Depth()) then AwaitingApproval else Ready;
    TransitionKeeps(db1, id, to, Planner, now);
    var db2 := Transition(db1, id, to, Planner, now).value;
    KidsFrame(db.tasks, db2.tasks, id, |db.tasks|);
    assert LeaseOk(db2.tasks[id]);
    PutKeeps(db2, id, db2.tasks[id].(kind := Leaf));
  }

  lemma BlockPlanKeeps(db: Db, id: TaskId, now: int)
    requires Inv(db) && id < |db.tasks| && db.tasks[id].state.Decomposing?
    requires BlockPlan(db, id, db.tasks[id].parent, now).Ok?
    ensures Inv(BlockPlan(db, id, db.tasks[id].parent, now).value)
  {
    TransitionKeeps(db, id, Blocked, Planner, now);
    var db1 := Transition(db, id, Blocked, Planner, now).value;
    ParentIsInner(db1, id);
    RollupKeeps(db1, db.tasks[id].parent, now);
  }

  /** What a committed plan close has checked; `db1` is the tables with its attempt. */
  lemma PlanCloseUnfolds(db: Db, id: TaskId, expected: nat, key: IdemKey, tokens: nat, result: PlanResult, checked: bool, now: int)
    returns (db1: Db)
    requires Rooted(db) && PlanClose(db, id, expected, key, tokens, result, checked, now).Ok?
    ensures id < |db.tasks| && !db.tasks[id].kind.Leaf? && db.tasks[id].state.Decomposing?
    ensures db1 == db.(attempts := db.attempts + [Attempt(id, Planning, key, None, CloseOutcome(result), tokens)])
    ensures var r := PlanClose(db, id, expected, key, tokens, result, checked, now); var t := db.tasks[id];
      && (result.AsksForInfo? ==> r == Transition(db1, id, AwaitingApproval, Planner, now))
      && (result.Rejects? || result.FindsInjection? ==> r == BlockPlan(db1, id, t.parent, now))
      && (result.Errs? ==>
            && PolicyOf(db1, t.campaign).Ok?
            && r == if t.attempts + 1 >= PolicyOf(db1, t.campaign).value.maxPlanAttempts
                    then BlockPlan(SetAttempts(db1, id, t.attempts + 1), id, t.parent, now)
                    else Transition(SetAttempts(db1, id, t.attempts + 1), id, Ready, Planner, now))
  {
    db1 := db.(attempts := db.attempts + [Attempt(id, Planning, key, None, CloseOutcome(result), tokens)]);
  }

  lemma CounterKeeps(db: Db, id: TaskId, attempts: nat)
    requires Inv(db) && id < |db.tasks|
    ensures Inv(SetAttempts(db, id, attempts))
  {
    assert LeaseOk(db.tasks[id]);
    PutKeeps(db, id, db.tasks[id].(attempts := attempts));
  }

  lemma PlanCloseKeeps(db: Db, id: TaskId, expected: nat, key: IdemKey, tokens: nat, result: PlanResult, checked: bool, now: int)
    requires Inv(db) && PlanClose(db, id, expected, key, tokens, result, checked, now).Ok?
    ensures Inv(PlanClose(db, id, expected, key, tokens, result, checked, now).value)
  {
    hide Inv, TreeOk, PlanClose, Transition, BlockPlan;
    SoundTree(db);
    var db1 := PlanCloseUnfolds(db, id, expected, key, tokens, result, checked, now);
    PlanAttemptKeeps(db, Attempt(id, Planning, key, None, CloseOutcome(result), tokens));
    match result
    case AsksForInfo => TransitionKeeps(db1, id, AwaitingApproval, Planner, now);
    case Rejects => BlockPlanKeeps(db1, id, now);
    case FindsInjection => BlockPlanKeeps(db1, id, now);
    case Errs =>
      var t := db1.tasks[id];
      CounterKeeps(db1, id, t.attempts + 1);
      var db2 := SetAttempts(db1, id, t.attempts + 1);
      if t.attempts + 1 >= PolicyOf(db1, t.campaign).value.maxPlanAttempts {
        BlockPlanKeeps(db2, id, now);
      } else {
        TransitionKeeps(db2, id, Ready, Planner, now);
      }
  }

  lemma PlanStartKeeps(db: Db, id: TaskId, now: int)
    requires Inv(db) && PlanStart(db, id, now).Ok?
    ensures Inv(PlanStart(db, id, now).value)
  {
    var t := db.tasks[id];
    var policy := PolicyOf(db, t.campaign).value;
    if t.attempts >= policy.maxPlanAttempts || PlanTokens(db, t.campaign, |db.attempts|) >= policy.maxPlanTokens {
      TransitionKeeps(db, id, Blocked, Planner, now);
      var db1 := Transition(db, id, Blocked, Planner, now).value;
      ParentIsInner(db1, id);
      RollupKeeps(db1, t.parent, now);
    } else {
      TransitionKeeps(db, id, Decomposing, Planner, now);
    }
  }

  lemma FailKeeps(db: Db, id: TaskId, owner: Owner, timedOut: bool, checked: bool, now: int)
    requires Inv(db) && Fail(db, id, owner, timedOut, checked, now).Ok?
    ensures Inv(Fail(db, id, owner, timedOut, checked, now).value)
  {
    var outcome := if timedOut then TimedOut else Erred;
    ReleasingKeeps(db, id, Failed, Worker, now, Some(owner), outcome);
    var db2 := CloseWork(Transition(db, id, Failed, Worker, now).value, id, Some(owner), outcome);
    var parent := db.tasks[id].parent;
    if parent.Some? {
      BlockEachKeeps(db2, id, Kids(db2, parent.value), now);
      var db3 := BlockEach(db2, id, Kids(db2, parent.value), now).value;
      ParentIsInner(db3, id);
      RollupKeeps(db3, parent, now);
    }
  }

  lemma ResolveReviewKeeps(db: Db, id: TaskId, merged: bool, now: int)
    requires Inv(db) && ResolveReview(db, id, merged, now).Ok?
    ensures Inv(ResolveReview(db, id, merged, now).value)
  {
    var to := if merged then Done else Failed;
    TransitionKeeps(db, id, to, Poller, now);
    var db1 := Transition(db, id, to, Poller, now).value;
    var parent := db.tasks[id].parent;
    ParentIsInner(db1, id);
    if merged {
      RollupKeeps(db1, parent, now);
    } else if parent.Some? {
      BlockEachKeeps(db1, id, Kids(db1, parent.value), now);
      var db2 := BlockEach(db1, id, Kids(db1, parent.value), now).value;
      ParentIsInner(db2, id);
      RollupKeeps(db2, parent, now);
    }
  }

  lemma RetryKeeps(db: Db, id: TaskId, actor: ActorClass, now: int)
    requires Inv(db) && Retry(db, id, actor, now).Ok?
    ensures Inv(Retry(db, id, actor, now).value)
  {
    TransitionKeeps(db, id, Ready, User, now);
    var db1 := Transition(db, id, Ready, User, now).value;
    ParentIsInner(db1, id);
    RollupKeeps(db1, db.tasks[id].parent, now);
  }

  lemma CancelKeeps(db: Db, id: TaskId, actor: ActorClass, now: int)
    requires Inv(db) && Cancel(db, id, actor, now).Ok?
    ensures Inv(Cancel(db, id, actor, now).value)
  {
    CancelEachKeeps(db, Subtree(db, id), now);
    var db1 := CancelEach(db, Subtree(db, id), now).value;
    ParentIsInner(db1, id);
    RollupKeeps(db1, db.tasks[id].parent, now);
  }

  lemma ReplanKeeps(db: Db, id: TaskId, actor: ActorClass, now: int)
    requires Inv(db) && Replan(db, id, actor, now).Ok?
    ensures Inv(Replan(db, id, actor, now).value)
  {
    SupersedeEachKeeps(db, id, Subtree(db, id), now);
    var db1 := SupersedeEach(db, id, Subtree(db, id), now).value;
    TransitionKeeps(db1, id, Decomposing, User, now);
    var db2 := Transition(db1, id, Decomposing, User, now).value;
    CounterKeeps(db2, id, 0);
  }

  lemma ClaimableAreReadyLeaves(db: Db)
    ensures forall x: TaskId | Claimable(db, x) :: x < |db.tasks| && db.tasks[x].state.Ready? && db.tasks[x].kind.Leaf?
  {
  }

  lemma ClaimsKeep(db: Db, limit: nat, owner: Owner, leaseSecs: int, busy: set<TaskId>, now: int)
    requires Inv(db) && Claim(db, limit, owner, leaseSecs, busy, now).Ok?
    ensures Inv(Claim(db, limit, owner, leaseSecs, busy, now).value)
  {
    hide Inv, ClaimEach, Candidates, Claimable;
    CandidatesAreClaimable(db, limit, busy);
    ClaimableAreReadyLeaves(db);
    ClaimEachKeeps(db, Candidates(db, limit, busy), 0, owner, ClampLease(leaseSecs), now);
  }

  lemma ReapKeeps(db: Db, busy: set<TaskId>, now: int)
    requires Inv(db) && Reap(db, busy, now).Ok?
    ensures Inv(Reap(db, busy, now).value)
  {
    hide Inv, ReapEach;
    ReapEachKeeps(db, Select((i: TaskId) => Expired(db, i, now) && i !in busy, |db.tasks|), now);
  }

  lemma ReapDecomposingKeeps(db: Db, maxAgeSecs: int, busy: set<TaskId>, now: int)
    requires Inv(db) && ReapDecomposing(db, maxAgeSecs, busy, now).Ok?
    ensures Inv(ReapDecomposing(db, maxAgeSecs, busy, now).value)
  {
    hide Inv, ReleaseEach;
    var keep := (i: TaskId) => PlanStale(db, i, ClampLease(maxAgeSecs), now) && i !in busy;
    SelectMembers(keep, |db.tasks|);
    assert forall x | x in Select(keep, |db.tasks|) :: keep(x);
    ReleaseEachKeeps(db, Select(keep, |db.tasks|), now);
  }

  lemma ApproveChildrenKeeps(db: Db, parent: TaskId, actor: ActorClass, now: int)
    requires Inv(db) && ApproveChildren(db, parent, actor, now).Ok?
    ensures Inv(ApproveChildren(db, parent, actor, now).value)
  {
    hide Inv, ApproveEach, Kids;
    ApproveEachKeeps(db, Kids(db, parent), now);
  }

  // ---- single-row protocols ----

  lemma CreateKeeps(db: Db, actor: ActorClass, draft: bool, policy: Option<Policy>, checked: bool, now: int)
    requires Inv(db) && Create(db, actor, draft, policy, checked, now).Ok?
    ensures Inv(Create(db, actor, draft, policy, checked, now).value)
  {
    hide Inv, InsertTask;
    var p := if policy.Some? then policy.value else DEFAULT_POLICY;
    RootKeeps(db, NewRoot(|db.tasks|, if draft then Draft else Ready, p, now), User);
  }

  lemma HeartbeatKeeps(db: Db, id: TaskId, owner: Owner, leaseSecs: int, now: int)
    requires Inv(db) && Heartbeat(db, id, owner, leaseSecs, now).Ok?
    ensures Inv(Heartbeat(db, id, owner, leaseSecs, now).value)
  {
    assert LeaseOk(db.tasks[id]);
    PutKeeps(db, id, db.tasks[id].(leaseUntil := Some(now + 1000 * ClampLease(leaseSecs)), updatedAt := now));
  }

  lemma StartKeeps(db: Db, id: TaskId, owner: Owner, now: int)
    requires Inv(db) && Start(db, id, owner, now).Ok?
    ensures Inv(Start(db, id, owner, now).value)
  {
    TransitionKeeps(db, id, Running, Worker, now);
  }

  lemma CompleteKeeps(db: Db, id: TaskId, owner: Owner, checked: bool, now: int)
    requires Inv(db) && Complete(db, id, owner, checked, now).Ok?
    ensures Inv(Complete(db, id, owner, checked, now).value)
  {
    ReleasingKeeps(db, id, InReview, Worker, now, Some(owner), Pr);
  }

  lemma ReviewNoteKeeps(db: Db, id: TaskId, awaiting: bool)
    requires Inv(db) && ReviewNote(db, id, awaiting).Ok?
    ensures Inv(ReviewNote(db, id, awaiting).value)
  {
    if !(awaiting && HasAwaitingMark(db, id)) {
      assert LeaseOk(db.tasks[id]);
      WriteKeeps(db, id, db.tasks[id], Poller, if awaiting then AwaitingPrApproval else PollError);
    }
  }

  lemma ApproveKeeps(db: Db, id: TaskId, expected: nat, actor: ActorClass, now: int)
    requires Inv(db) && Approve(db, id, expected, actor, now).Ok?
    ensures Inv(Approve(db, id, expected, actor, now).value)
  {
    if db.tasks[id].state.InReview? {
      assert LeaseOk(db.tasks[id]);
      WriteKeeps(db, id, db.tasks[id], User, PrApproved);
    } else {
      TransitionKeeps(db, id, Ready, User, now);
    }
  }

  lemma AnswerKeeps(db: Db, id: TaskId, expected: nat, actor: ActorClass, checked: bool, now: int)
    requires Inv(db) && Answer(db, id, expected, actor, checked, now).Ok?
    ensures Inv(Answer(db, id, expected, actor, checked, now).value)
  {
    TransitionKeeps(db, id, Ready, User, now);
  }

  lemma UpdatePolicyKeeps(db: Db, id: TaskId, policy: Policy, actor: ActorClass, now: int)
    requires Inv(db) && UpdatePolicy(db, id, policy, actor, now).Ok?
    ensures Inv(UpdatePolicy(db, id, policy, actor, now).value)
  {
    var t := db.tasks[id];
    assert LeaseOk(t);
    WriteKeeps(db, id, t.(policy := Some(policy), version := t.version + 1, updatedAt := now), User, PolicyUpdated);
  }

  /** Every protocol that commits keeps every invariant. */
  lemma ApplyKeeps(db: Db, op: Op, now: int)
    requires Inv(db) && Apply(db, op, now).Ok?
    ensures Inv(Apply(db, op, now).value)
  {
    hide Inv, Create, PlanStart, Decompose, MarkLeaf, PlanClose, Claim, Heartbeat, Reap, ReapDecomposing, Start, Complete,
      Fail, ResolveReview, ReviewNote, Approve, ApproveChildren, Answer, Retry, UpdatePolicy, Cancel, Replan;
    match op
    case CreateOp(actor, draft, policy, checked) => CreateKeeps(db, actor, draft, policy, checked, now);
    case PlanStartOp(task) => PlanStartKeeps(db, task, now);
    case DecomposeOp(task, expected, key, tokens, deps, checked) => DecomposeKeeps(db, task, expected, key, tokens, deps, checked, now);
    case MarkLeafOp(task, expected, key, tokens, checked) => MarkLeafKeeps(db, task, expected, key, tokens, checked, now);
    case PlanCloseOp(task, expected, key, tokens, result, checked) => PlanCloseKeeps(db, task, expected, key, tokens, result, checked, now);
    case FailOp(task, owner, timedOut, checked) => FailKeeps(db, task, owner, timedOut, checked, now);
    case ResolveReviewOp(task, merged) => ResolveReviewKeeps(db, task, merged, now);
    case ApproveChildrenOp(task, actor) => ApproveChildrenKeeps(db, task, actor, now);
    case RetryOp(task, actor) => RetryKeeps(db, task, actor, now);
    case CancelOp(task, actor) => CancelKeeps(db, task, actor, now);
    case ReplanOp(task, actor) => ReplanKeeps(db, task, actor, now);
    case ClaimOp(limit, owner, leaseSecs, busy) => ClaimsKeep(db, limit, owner, leaseSecs, busy, now);
    case ReapOp(busy) => ReapKeeps(db, busy, now);
    case ReapDecomposingOp(maxAgeSecs, busy) => ReapDecomposingKeeps(db, maxAgeSecs, busy, now);
    case HeartbeatOp(task, owner, leaseSecs) => HeartbeatKeeps(db, task, owner, leaseSecs, now);
    case StartOp(task, owner) => StartKeeps(db, task, owner, now);
    case CompleteOp(task, owner, checked) => CompleteKeeps(db, task, owner, checked, now);
    case ReviewNoteOp(task, awaiting) => ReviewNoteKeeps(db, task, awaiting);
    case ApproveOp(task, expected, actor) => ApproveKeeps(db, task, expected, actor, now);
    case AnswerOp(task, expected, actor, checked) => AnswerKeeps(db, task, expected, actor, checked, now);
    case UpdatePolicyOp(task, policy, actor) => UpdatePolicyKeeps(db, task, policy, actor, now);
  }
}
