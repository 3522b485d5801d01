/**
 * What every committed state of the campaign store satisfies, and the writes that keep it.
 *
 * The invariant `Inv` has six parts:
 * - the log: each row's events form one chain that ends at the row's state and version;
 * - the ledger: a leased row has one pending `work` attempt, its owner's and its newest, any other row none;
 * - leases: only a leaf is leased, with an owner and an end;
 * - keys: the key of a work attempt names its row, at a version that the row has already had;
 * - the tree: every row is one ordinal below its parent, children are numbered from 1 without gaps and are
 *   at most eight, and leaves have none;
 * - dependencies are siblings, and stored policies are valid.
 *
 * `Core` leaves out the dependencies: a batch of siblings meets those only once it is complete.
 */
module CampaignInvariants {
  import opened Outcomes
  import opened CampaignRules
  import opened CampaignTables
  import opened CampaignProtocols

  // ---- the event log replays to the rows ----

  datatype History = Unborn | At(state: TaskState, version: nat) | Broken

  /** One more event of a task: it must leave the state the log has reached, at a later version. */
  function Extend(h: History, e: Event): History {
    match h
    case Unborn => if e.from.None? && e.version == 1 then At(e.to, 1) else Broken
    case At(state, version) =>
      if e.from == Some(state) && (version < e.version || (version == e.version && e.to == state))
      then At(e.to, e.version) else Broken
    case Broken => Broken
  }

  /** Read task `id`'s events in order; `Broken` when they do not form one chain. */
  function Replay(events: seq<Event>, id: TaskId): History {
    if |events| == 0 then Unborn
    else
      var before := Replay(events[..|events| - 1], id);
      var e := events[|events| - 1];
      if e.task == id then Extend(before, e) else before
  }

  function RowHistory(tasks: seq<Task>, id: TaskId): History {
    if id < |tasks| then At(tasks[id].state, tasks[id].version) else Unborn
  }

  ghost predicate LogOk(tasks: seq<Task>, events: seq<Event>) {
    forall i: TaskId :: Replay(events, i) == RowHistory(tasks, i)
  }

  // ---- the attempts table is the lease ledger ----

  /** The owners of the pending `work` attempts on `id`, oldest first. */
  function OpenOwners(attempts: seq<Attempt>, id: TaskId): seq<Option<Owner>> {
    if |attempts| == 0 then []
    else
      var a := attempts[|attempts| - 1];
      OpenOwners(attempts[..|attempts| - 1], id) + (if IsOpen(a, id) then [a.owner] else [])
  }

  /** The position of the last `work` attempt on `id`: the one that its most recent claim opened. */
  function LastWork(attempts: seq<Attempt>, id: TaskId): (r: Option<nat>)
    ensures r.Some? ==> r.value < |attempts| && attempts[r.value].kind.Work? && attempts[r.value].task == id
  {
    if |attempts| == 0 then None
    else
      var a := attempts[|attempts| - 1];
      if a.task == id && a.kind.Work? then Some(|attempts| - 1) else LastWork(attempts[..|attempts| - 1], id)
  }

  ghost predicate LedgerReads(attempts: seq<Attempt>, id: TaskId, lease: Option<Owner>) {
    match lease
    case None => OpenOwners(attempts, id) == []
    case Some(owner) =>
      && OpenOwners(attempts, id) == [Some(owner)]
      && LastWork(attempts, id).Some?
      && IsOpen(attempts[LastWork(attempts, id).value], id)
  }

  function Lessee(tasks: seq<Task>, id: TaskId): Option<Owner> {
    if id < |tasks| then tasks[id].claimedBy else None
  }

  ghost predicate LedgerOk(tasks: seq<Task>, attempts: seq<Attempt>) {
    forall i: TaskId :: LedgerReads(attempts, i, Lessee(tasks, i))
  }

  /** A lease has an owner and an end, and only a leaf has one. */
  predicate LeaseOk(t: Task) {
    && (t.state.IsLeased() <==> t.claimedBy.Some?)
    && (t.state.IsLeased() <==> t.leaseUntil.Some?)
    && (t.state.IsLeased() ==> t.kind.Leaf?)
  }

  ghost predicate LeasesOk(tasks: seq<Task>) {
    forall i: TaskId | i < |tasks| :: LeaseOk(tasks[i])
  }

  /** The key of a work attempt names its own task, at a version that the task has already had. */
  ghost predicate KeysOk(tasks: seq<Task>, attempts: seq<Attempt>) {
    forall a | 0 <= a < |attempts| && attempts[a].kind.Work? ::
      attempts[a].idem.task < |tasks| && attempts[a].idem.version <= tasks[attempts[a].idem.task].version
  }

  // ---- the tree ----

  /** A root stands alone; any other row is one ordinal below its parent, in the same campaign. */
  ghost predicate PlaceOk(tasks: seq<Task>, i: TaskId)
    requires i < |tasks| && (tasks[i].parent.Some? ==> tasks[i].parent.value < i)
  {
    var t := tasks[i];
    && 1 <= |t.path| <= 7
    && (t.parent.None? ==> t.path == [i] && t.kind.Objective? && t.campaign == i)
    && (t.parent.Some? ==>
          var p := tasks[t.parent.value];
          && !t.kind.Objective? && !p.kind.Leaf?
          && t.campaign == p.campaign
          && |t.path| == |p.path| + 1 && p.path == t.path[..|p.path|])
  }

  /** The children's ordinals are 1 to their number, in order. */
  ghost predicate NumberedOk(db: Db, i: TaskId) {
    && |Kids(db, i)| <= 8
    && forall j | 0 <= j < |Kids(db, i)| :: db.tasks[Kids(db, i)[j]].Ordinal() == j + 1
  }

  ghost predicate NodeOk(db: Db, i: TaskId)
    requires Rooted(db) && i < |db.tasks|
  {
    PlaceOk(db.tasks, i) && NumberedOk(db, i)
  }

  ghost predicate TreeOk(db: Db) {
    && Rooted(db)
    && forall i: TaskId | i < |db.tasks| :: NodeOk(db, i)
  }

  /** Dependencies are siblings. */
  ghost predicate DepsAmongSiblings(tasks: seq<Task>, t: Task) {
    forall d | d in t.dependsOn :: d < |tasks| && t.parent.Some? && tasks[d].parent == t.parent
  }

  ghost predicate DepsOk(tasks: seq<Task>) {
    forall i: TaskId | i < |tasks| :: DepsAmongSiblings(tasks, tasks[i])
  }

  ghost predicate PoliciesOk(tasks: seq<Task>) {
    forall i: TaskId | i < |tasks| && tasks[i].policy.Some? :: tasks[i].policy.value.Valid()
  }

  /** Everything but the dependencies, which a batch of siblings meets only once it is complete. */
  ghost predicate Core(db: Db) {
    && TreeOk(db)
    && LogOk(db.tasks, db.events)
    && LeasesOk(db.tasks)
    && LedgerOk(db.tasks, db.attempts)
    && KeysOk(db.tasks, db.attempts)
    && PoliciesOk(db.tasks)
  }

  ghost predicate Inv(db: Db) {
    Core(db) && DepsOk(db.tasks)
  }

  /** What most proofs use of the invariants: the tree. */
  lemma SoundTree(db: Db)
    requires Inv(db)
    ensures Rooted(db) && TreeOk(db)
  {
  }

  // ---- frames, one table at a time ----

  /** Same rows in the same places of the tree. */
  ghost predicate SameShape(a: seq<Task>, b: seq<Task>) {
    && |a| == |b|
    && forall i | 0 <= i < |a| :: a[i].parent == b[i].parent && a[i].path == b[i].path && a[i].campaign == b[i].campaign
  }

  lemma {:induction false} KidsFrame(a: seq<Task>, b: seq<Task>, p: TaskId, n: nat)
    requires n <= |a| && n <= |b|
    requires forall i | 0 <= i < n :: a[i].parent == b[i].parent
    ensures KidsBelow(a, p, n) == KidsBelow(b, p, n)
  {
    if n > 0 {
      KidsFrame(a, b, p, n - 1);
    }
  }

  /** Rows may change in place; a node without children may become a leaf. */
  lemma TreeFrame(db: Db, db': Db)
    requires TreeOk(db)
    requires SameShape(db.tasks, db'.tasks)
    requires forall i: TaskId | i < |db.tasks| ::
      db'.tasks[i].kind == db.tasks[i].kind
      || (db.tasks[i].kind.Interior? && db'.tasks[i].kind.Leaf? && |Kids(db, i)| == 0)
    ensures TreeOk(db')
  {
    forall i: TaskId | i < |db.tasks|
      ensures PlaceOk(db'.tasks, i)
    {
      assert NodeOk(db, i);
      if db.tasks[i].parent.Some? {
        assert NodeOk(db, db.tasks[i].parent.value);
        KidIsListed(db.tasks, i, |db.tasks|);
      }
    }
    forall i: TaskId | i < |db.tasks|
      ensures NumberedOk(db', i)
    {
      assert NodeOk(db, i);
      NumberedFrame(db, db', i);
    }
  }

  lemma NumberedFrame(db: Db, db': Db, i: TaskId)
    requires NumberedOk(db, i)
    requires SameShape(db.tasks, db'.tasks)
    ensures NumberedOk(db', i)
  {
    KidsFrame(db.tasks, db'.tasks, i, |db.tasks|);
  }

  lemma {:induction false} KidIsListed(tasks: seq<Task>, c: TaskId, n: nat)
    requires c < n <= |tasks| && tasks[c].parent.Some?
    ensures c in KidsBelow(tasks, tasks[c].parent.value, n)
  {
    if c < n - 1 {
      KidIsListed(tasks, c, n - 1);
    }
  }

  lemma DepsFrame(a: seq<Task>, b: seq<Task>)
    requires DepsOk(a) && |a| <= |b|
    requires forall i: TaskId | i < |a| :: a[i].parent == b[i].parent && a[i].dependsOn == b[i].dependsOn
    requires forall i: TaskId | |a| <= i < |b| :: DepsAmongSiblings(b, b[i])
    ensures DepsOk(b)
  {
    forall i: TaskId | i < |b|
      ensures DepsAmongSiblings(b, b[i])
    {
      if i < |a| {
        assert DepsAmongSiblings(a, a[i]);
      }
    }
  }

  lemma LedgerFrame(a: seq<Task>, b: seq<Task>, attempts: seq<Attempt>)
    requires LedgerOk(a, attempts)
    requires forall i: TaskId :: Lessee(a, i) == Lessee(b, i)
    ensures LedgerOk(b, attempts)
  {
    forall i: TaskId
      ensures LedgerReads(attempts, i, Lessee(b, i))
    {
      assert LedgerReads(attempts, i, Lessee(a, i));
    }
  }

  lemma LogExtends(events: seq<Event>, e: Event, id: TaskId)
    ensures Replay(events + [e], id) == if e.task == id then Extend(Replay(events, id), e) else Replay(events, id)
  {
    assert (events + [e])[..|events|] == events;
  }

  lemma LogFrame(tasks: seq<Task>, events: seq<Event>, id: TaskId, row: Task, e: Event)
    requires LogOk(tasks, events) && id < |tasks|
    requires e.task == id && e.from == Some(tasks[id].state) && e.to == row.state && e.version == row.version
    requires tasks[id].version < row.version || (tasks[id].version == row.version && tasks[id].state == row.state)
    ensures LogOk(tasks[id := row], events + [e])
  {
    forall i: TaskId
      ensures Replay(events + [e], i) == if i == id then Extend(Replay(events, i), e) else Replay(events, i)
    {
      LogExtends(events, e, i);
    }
  }

  lemma LedgerExtends(attempts: seq<Attempt>, a: Attempt, id: TaskId)
    ensures OpenOwners(attempts + [a], id) == OpenOwners(attempts, id) + (if IsOpen(a, id) then [a.owner] else [])
    ensures LastWork(attempts + [a], id) ==
      if a.task == id && a.kind.Work? then Some(|attempts|) else LastWork(attempts, id)
  {
    assert (attempts + [a])[..|attempts|] == attempts;
  }

  /** Closing work on `id` removes the matching owners from `id`'s ledger and touches no other. */
  lemma LedgerCloses(attempts: seq<Attempt>, id: TaskId, owner: Option<Owner>, outcome: AttemptOutcome, i: TaskId)
    requires !outcome.Pending?
    ensures var closed := CloseAttempts(attempts, id, owner, outcome);
      && (i != id ==> OpenOwners(closed, i) == OpenOwners(attempts, i))
      && (i == id && owner.None? ==> OpenOwners(closed, i) == [])
      && (i == id && (forall o | o in OpenOwners(attempts, id) :: o == owner) ==> OpenOwners(closed, i) == [])
      && LastWork(closed, i) == LastWork(attempts, i)
      && (i != id && LastWork(attempts, i).Some? ==> closed[LastWork(attempts, i).value] == attempts[LastWork(attempts, i).value])
  {
    OwnersAfterClose(attempts, id, owner, outcome, i);
    LastWorkStays(attempts, CloseAttempts(attempts, id, owner, outcome), i);
  }

  lemma {:induction false} OwnersAfterClose(attempts: seq<Attempt>, id: TaskId, owner: Option<Owner>, outcome: AttemptOutcome, i: TaskId)
    requires !outcome.Pending?
    ensures var closed := CloseAttempts(attempts, id, owner, outcome);
      && (i != id ==> OpenOwners(closed, i) == OpenOwners(attempts, i))
      && (i == id && (owner.None? || forall o | o in OpenOwners(attempts, id) :: o == owner) ==> OpenOwners(closed, i) == [])
  {
    if |attempts| > 0 {
      var closed := CloseAttempts(attempts, id, owner, outcome);
      var front := attempts[..|attempts| - 1];
      var a := attempts[|attempts| - 1];
      OwnersAfterClose(front, id, owner, outcome, i);
      assert closed[..|closed| - 1] == CloseAttempts(front, id, owner, outcome);
      assert OpenOwners(attempts, id) == OpenOwners(front, id) + (if IsOpen(a, id) then [a.owner] else []);
      assert forall o | o in OpenOwners(front, id) :: o in OpenOwners(attempts, id);
      assert IsOpen(a, id) ==> a.owner in OpenOwners(attempts, id);
    }
  }

  /** Which attempt is a row's last depends on the kinds and the rows of the attempts alone. */
  lemma {:induction false} LastWorkStays(a: seq<Attempt>, b: seq<Attempt>, i: TaskId)
    requires |a| == |b| && forall k | 0 <= k < |a| :: a[k].task == b[k].task && a[k].kind == b[k].kind
    ensures LastWork(b, i) == LastWork(a, i)
  {
    if |a| > 0 {
      LastWorkStays(a[..|a| - 1], b[..|b| - 1], i);
    }
  }

  /** The rules about single rows, and the keys, after one row has changed and an attempt may have been added. */
  lemma RowRules(db: Db, db': Db, id: TaskId, row: Task)
    requires LeasesOk(db.tasks) && PoliciesOk(db.tasks) && KeysOk(db.tasks, db.attempts)
    requires id < |db.tasks| && db'.tasks == db.tasks[id := row] && db.tasks[id].version <= row.version
    requires LeaseOk(row) && (row.policy.Some? ==> row.policy.value.Valid())
    requires |db.attempts| <= |db'.attempts|
    requires forall a | 0 <= a < |db.attempts| :: db'.attempts[a].kind == db.attempts[a].kind && db'.attempts[a].idem == db.attempts[a].idem
    requires forall a | |db.attempts| <= a < |db'.attempts| && db'.attempts[a].kind.Work? ::
      db'.attempts[a].idem.task == id && db'.attempts[a].idem.version <= row.version
    ensures LeasesOk(db'.tasks) && PoliciesOk(db'.tasks) && KeysOk(db'.tasks, db'.attempts)
  {
  }

  // ---- the writes that keep everything ----

  /** What a write in place leaves alone. */
  predicate SameIdentity(t: Task, row: Task) {
    row.parent == t.parent && row.path == t.path && row.campaign == t.campaign && row.dependsOn == t.dependsOn
  }

  /** A row write with its event, that neither takes nor gives up a lease. */
  lemma WriteKeeps(db: Db, id: TaskId, row: Task, actor: ActorClass, note: Note)
    requires Inv(db) && id < |db.tasks|
    requires SameIdentity(db.tasks[id], row) && row.kind == db.tasks[id].kind
    requires row.policy.Some? ==> row.policy.value.Valid()
    requires LeaseOk(row) && row.claimedBy == db.tasks[id].claimedBy
    requires db.tasks[id].version < row.version || (db.tasks[id].version == row.version && db.tasks[id].state == row.state)
    ensures Inv(Write(db, id, row, db.tasks[id].state, actor, note))
  {
    hide TreeOk, LogOk, LeasesOk, LedgerOk, KeysOk, PoliciesOk, DepsOk, LeaseOk;
    var db' := Write(db, id, row, db.tasks[id].state, actor, note);
    RowRules(db, db', id, row);
    TreeFrame(db, db');
    DepsFrame(db.tasks, db'.tasks);
    LedgerFrame(db.tasks, db'.tasks, db.attempts);
    LogFrame(db.tasks, db.events, id, row, Event(id, Some(db.tasks[id].state), row.state, actor, row.version, note));
  }

  /** A row change without an event: neither state nor version moves. */
  lemma PutKeeps(db: Db, id: TaskId, row: Task)
    requires Inv(db) && id < |db.tasks|
    requires SameIdentity(db.tasks[id], row) && row.policy == db.tasks[id].policy
    requires row.kind == db.tasks[id].kind
      || (db.tasks[id].kind.Interior? && row.kind.Leaf? && |Kids(db, id)| == 0)
    requires LeaseOk(row) && row.claimedBy == db.tasks[id].claimedBy
    requires row.state == db.tasks[id].state && row.version == db.tasks[id].version
    ensures Inv(Put(db, id, row))
  {
    PolicyIsValid(db, id);
    hide TreeOk, LogOk, LeasesOk, LedgerOk, KeysOk, PoliciesOk, DepsOk, LeaseOk;
    RowRules(db, Put(db, id, row), id, row);
    TreeFrame(db, Put(db, id, row));
    DepsFrame(db.tasks, Put(db, id, row).tasks);
    LedgerFrame(db.tasks, Put(db, id, row).tasks, db.attempts);
    LogIsAsBefore(db.tasks, db.events, id, row);
  }

  lemma PolicyIsValid(db: Db, id: TaskId)
    requires Inv(db) && id < |db.tasks|
    ensures db.tasks[id].policy.Some? ==> db.tasks[id].policy.value.Valid()
  {
  }

  /** The log reads states and versions only. */
  lemma LogIsAsBefore(tasks: seq<Task>, events: seq<Event>, id: TaskId, row: Task)
    requires LogOk(tasks, events) && id < |tasks| && row.state == tasks[id].state && row.version == tasks[id].version
    ensures LogOk(tasks[id := row], events)
  {
  }

  /** A state write that ends any lease, with the attempts it leaves behind closed. */
  lemma ReleaseKeeps(db: Db, id: TaskId, row: Task, actor: ActorClass, owner: Option<Owner>, outcome: AttemptOutcome)
    requires Inv(db) && id < |db.tasks|
    requires SameIdentity(db.tasks[id], row) && row.kind == db.tasks[id].kind && row.policy == db.tasks[id].policy
    requires !row.state.IsLeased() && row.claimedBy.None? && row.leaseUntil.None?
    requires db.tasks[id].version < row.version
    requires owner.None? || owner == db.tasks[id].claimedBy
    requires !outcome.Pending?
    ensures Inv(CloseWork(Write(db, id, row, db.tasks[id].state, actor, Plain), id, owner, outcome))
  {
    PolicyIsValid(db, id);
    assert LeaseOk(row);
    hide TreeOk, LogOk, LeasesOk, LedgerOk, KeysOk, PoliciesOk, DepsOk, LeaseOk;
    var db' := CloseWork(Write(db, id, row, db.tasks[id].state, actor, Plain), id, owner, outcome);
    RowRules(db, db', id, row);
    TreeFrame(db, db');
    DepsFrame(db.tasks, db'.tasks);
    LogFrame(db.tasks, db.events, id, row, Event(id, Some(db.tasks[id].state), row.state, actor, row.version, Plain));
    LedgerReleases(db.tasks, db.attempts, id, row, owner, outcome);
  }

  /** The ledger of a row that gives up its lease, with the lease's attempt closed. */
  lemma LedgerReleases(tasks: seq<Task>, attempts: seq<Attempt>, id: TaskId, row: Task, owner: Option<Owner>, outcome: AttemptOutcome)
    requires LedgerOk(tasks, attempts) && id < |tasks| && row.claimedBy.None?
    requires owner.None? || owner == tasks[id].claimedBy
    requires !outcome.Pending?
    ensures LedgerOk(tasks[id := row], CloseAttempts(attempts, id, owner, outcome))
  {
    var rows := tasks[id := row];
    var closed := CloseAttempts(attempts, id, owner, outcome);
    forall i: TaskId
      ensures LedgerReads(closed, i, Lessee(rows, i))
    {
      assert LedgerReads(attempts, i, Lessee(tasks, i));
      LedgerCloses(attempts, id, owner, outcome, i);
    }
  }

  /** A planner's closed attempt, under a key the caller chose. */
  lemma PlanAttemptKeeps(db: Db, a: Attempt)
    requires Inv(db) && a.kind.Planning?
    ensures Inv(db.(attempts := db.attempts + [a]))
  {
    var db' := db.(attempts := db.attempts + [a]);
    TreeFrame(db, db');
    forall i: TaskId
      ensures LedgerReads(db'.attempts, i, Lessee(db'.tasks, i))
    {
      assert LedgerReads(db.attempts, i, Lessee(db.tasks, i));
      LedgerExtends(db.attempts, a, i);
    }
  }

  /** A new root. */
  lemma RootKeeps(db: Db, t: Task, actor: ActorClass)
    requires Inv(db)
    requires t.parent.None? && t.path == [|db.tasks|] && t.campaign == |db.tasks| && t.kind.Objective? && t.version == 1
    requires LeaseOk(t) && t.claimedBy.None? && t.dependsOn == []
    requires t.policy.Some? ==> t.policy.value.Valid()
    ensures Inv(InsertTask(db, t, actor))
  {
    var db' := InsertTask(db, t, actor);
    RootInTree(db, db', t);
    DepsFrame(db.tasks, db'.tasks);
    InsertLog(db, t, actor);
  }

  lemma RootInTree(db: Db, db': Db, t: Task)
    requires TreeOk(db) && db'.tasks == db.tasks + [t]
    requires t.parent.None? && t.path == [|db.tasks|] && t.campaign == |db.tasks| && t.kind.Objective?
    ensures TreeOk(db')
  {
    forall i: TaskId | i < |db'.tasks|
      ensures NodeOk(db', i)
    {
      KidsAfterInsert(db, db', t, i);
      hide Kids;
      if i < |db.tasks| {
        assert NodeOk(db, i);
      }
    }
  }

  /** A new row is listed last under its parent, and has no children yet. */
  lemma KidsAfterInsert(db: Db, db': Db, t: Task, i: TaskId)
    requires Rooted(db) && db'.tasks == db.tasks + [t] && i <= |db.tasks|
    requires t.parent.Some? ==> t.parent.value < |db.tasks|
    ensures Kids(db', i) == (if i < |db.tasks| then Kids(db, i) else []) + (if t.parent == Some(i) then [|db.tasks|] else [])
  {
    var n := |db.tasks|;
    assert KidsBelow(db'.tasks, i, n + 1) == KidsBelow(db'.tasks, i, n) + (if t.parent == Some(i) then [n] else []);
    KidsFrame(db.tasks, db'.tasks, i, n);
    if i == n {
      NoKidsYet(db, i, n);
    }
  }

  lemma {:induction false} NoKidsYet(db: Db, p: TaskId, n: nat)
    requires Rooted(db) && n <= |db.tasks| <= p
    ensures KidsBelow(db.tasks, p, n) == []
  {
    if n > 0 {
      NoKidsYet(db, p, n - 1);
    }
  }

  lemma InsertLog(db: Db, t: Task, actor: ActorClass)
    requires LogOk(db.tasks, db.events) && LedgerOk(db.tasks, db.attempts) && t.version == 1 && t.claimedBy.None?
    ensures LogOk(InsertTask(db, t, actor).tasks, InsertTask(db, t, actor).events)
    ensures LedgerOk(InsertTask(db, t, actor).tasks, InsertTask(db, t, actor).attempts)
  {
    LedgerFrame(db.tasks, db.tasks + [t], db.attempts);
    var e := Event(|db.tasks|, None, t.state, actor, t.version, Plain);
    forall i: TaskId
      ensures Replay(db.events + [e], i) == if i == |db.tasks| then Extend(Replay(db.events, i), e) else Replay(db.events, i)
    {
      LogExtends(db.events, e, i);
    }
  }

  /** A new child, whose ordinal follows its siblings'. */
  lemma KidKeeps(db: Db, t: Task, actor: ActorClass)
    requires Core(db)
    requires t.parent.Some? && t.parent.value < |db.tasks|
    requires var p := db.tasks[t.parent.value];
      && t.campaign == p.campaign && |p.path| <= 6 && !p.kind.Leaf?
      && |Kids(db, t.parent.value)| < 8 && t.path == p.path + [|Kids(db, t.parent.value)| + 1]
    requires t.kind.Interior? && t.version == 1 && LeaseOk(t) && t.claimedBy.None? && t.policy.None?
    ensures Core(InsertTask(db, t, actor))
    ensures Kids(InsertTask(db, t, actor), t.parent.value) == Kids(db, t.parent.value) + [|db.tasks|]
  {
    KidInTree(db, InsertTask(db, t, actor), t);
    InsertLog(db, t, actor);
  }

  lemma KidInTree(db: Db, db': Db, t: Task)
    requires TreeOk(db) && db'.tasks == db.tasks + [t]
    requires t.parent.Some? && t.parent.value < |db.tasks|
    requires var p := db.tasks[t.parent.value];
      && t.campaign == p.campaign && |p.path| <= 6 && !p.kind.Leaf?
      && |Kids(db, t.parent.value)| < 8 && t.path == p.path + [|Kids(db, t.parent.value)| + 1]
    requires t.kind.Interior?
    ensures TreeOk(db')
    ensures Kids(db', t.parent.value) == Kids(db, t.parent.value) + [|db.tasks|]
  {
    KidsAfterInsert(db, db', t, t.parent.value);
    hide Kids;
    assert NodeOk(db, t.parent.value);
    forall i: TaskId | i < |db'.tasks|
      ensures PlaceOk(db'.tasks, i)
    {
      if i < |db.tasks| {
        assert NodeOk(db, i);
      }
    }
    forall i: TaskId | i < |db'.tasks|
      ensures NumberedOk(db', i)
    {
      KidsAfterInsert(db, db', t, i);
      if i < |db.tasks| {
        assert NodeOk(db, i);
      }
    }
  }

  /** Some planner closed an attempt under this key. */
  predicate PlannerHolds(db: Db, key: IdemKey) {
    exists i | 0 <= i < |db.attempts| :: db.attempts[i].kind.Planning? && db.attempts[i].idem == key
  }

  /** A minted key is never a work attempt's: only a planner, whose keys are its own choice, can have used it. */
  lemma MintedMeetsPlannersOnly(db: Db, id: TaskId, position: nat, now: int)
    requires Inv(db) && id < |db.tasks|
    ensures IdemExists(db, MintedKey(db, id, position, now)) <==> PlannerHolds(db, MintedKey(db, id, position, now))
  {
  }

  /**
   * A claim of a ready leaf goes through if and only if no planner used the very key that the store mints;
   * then the row gets its lease and the ledger one pending attempt.
   */
  lemma ClaimKeeps(db: Db, id: TaskId, position: nat, owner: Owner, lease: int, now: int)
    requires Inv(db) && id < |db.tasks| && db.tasks[id].kind.Leaf? && db.tasks[id].state.Ready?
    ensures ClaimOne(db, id, position, owner, lease, now).Ok? <==> !PlannerHolds(db, MintedKey(db, id, position, now))
    ensures ClaimOne(db, id, position, owner, lease, now).Ok? ==> Inv(ClaimOne(db, id, position, owner, lease, now).value)
  {
    MintedMeetsPlannersOnly(db, id, position, now);
    if ClaimOne(db, id, position, owner, lease, now).Ok? {
      ClaimedRowKeeps(db, id, position, owner, lease, now);
    }
  }

  lemma FreeUnlessLeased(db: Db, id: TaskId)
    requires Inv(db) && id < |db.tasks|
    ensures !db.tasks[id].state.IsLeased() ==> db.tasks[id].claimedBy.None?
  {
    assert LeaseOk(db.tasks[id]);
  }

  lemma ClaimedRowKeeps(db: Db, id: TaskId, position: nat, owner: Owner, lease: int, now: int)
    requires Inv(db) && id < |db.tasks| && db.tasks[id].kind.Leaf? && db.tasks[id].state.Ready?
    requires ClaimOne(db, id, position, owner, lease, now).Ok?
    ensures Inv(ClaimOne(db, id, position, owner, lease, now).value)
  {
    PolicyIsValid(db, id);
    FreeUnlessLeased(db, id);
    hide TreeOk, LogOk, LeasesOk, LedgerOk, KeysOk, PoliciesOk, DepsOk, IdemExists, SameShape, MintedKey;
    var t := db.tasks[id];
    var row := t.(state := Claimed, version := t.version + 1, updatedAt := now,
                  claimedBy := Some(owner), leaseUntil := Some(now + 1000 * lease));
    var a := Attempt(id, Work, MintedKey(db, id, position, now), Some(owner), Pending, 0);
    var db1 := Write(db, id, row, Ready, Driver, Plain);
    var db' := db1.(attempts := db.attempts + [a]);
    TreeFrame(db, db');
    DepsFrame(db.tasks, db'.tasks);
    LogFrame(db.tasks, db.events, id, row, Event(id, Some(Ready), Claimed, Driver, row.version, Plain));
    RowRules(db, db', id, row);
    LedgerClaims(db.tasks, db.attempts, row, a);
  }

  /** The ledger of a free row that takes a lease, with the claim's attempt appended. */
  lemma LedgerClaims(tasks: seq<Task>, attempts: seq<Attempt>, row: Task, a: Attempt)
    requires LedgerOk(tasks, attempts) && a.task < |tasks| && tasks[a.task].claimedBy.None?
    requires a.kind.Work? && a.outcome.Pending? && a.owner.Some? && row.claimedBy == a.owner
    ensures LedgerOk(tasks[a.task := row], attempts + [a])
  {
    hide LedgerReads;
    var rows := tasks[a.task := row];
    forall i: TaskId
      ensures LedgerReads(attempts + [a], i, Lessee(rows, i))
    {
      assert LedgerReads(attempts, i, Lessee(tasks, i));
      ClaimReads(attempts, a, i, Lessee(tasks, i));
    }
  }

  /** One row's ledger after a claim: the claimed row's gains the attempt, any other is as before. */
  lemma ClaimReads(attempts: seq<Attempt>, a: Attempt, i: TaskId, lease: Option<Owner>)
    requires LedgerReads(attempts, i, lease) && (i == a.task ==> lease.None?)
    requires a.kind.Work? && a.outcome.Pending? && a.owner.Some?
    ensures LedgerReads(attempts + [a], i, if i == a.task then a.owner else lease)
  {
    LedgerExtends(attempts, a, i);
  }
}
