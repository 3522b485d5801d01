/** The three tables of a campaign store, and the statements every protocol is built from. */
module CampaignTables {
  import opened Outcomes
  import opened CampaignRules

  type TaskId = nat
  type Owner = string

  datatype Error = NotFound | Conflict | AlreadyApplied | LeaseLost | Denied | Invalid

  datatype Policy = Policy(
    approveLevels: seq<int>, maxDepth: int, maxChildren: int, maxNodes: int,
    maxPlanAttempts: int, maxPlanTokens: int)
  {
    /** The range checks; a policy that fails them is refused at every door. */
    predicate Valid() {
      && 1 <= maxDepth <= 6
      && 1 <= maxChildren <= 8
      && 1 <= maxNodes <= 200
      && 1 <= maxPlanAttempts <= 10
      && 1 <= maxPlanTokens
      && |approveLevels| <= 6
      && (forall i | 0 <= i < |approveLevels| :: 1 <= approveLevels[i] <= maxDepth)
      && (forall i, j | 0 <= i < j < |approveLevels| :: approveLevels[i] != approveLevels[j])
    }

    /** New children at `depth` wait for a human. */
    predicate Gated(depth: int) {
      depth in approveLevels
    }

    function ChildrenCap(): nat {
      if maxChildren < 1 then 1 else if maxChildren > 8 then 8 else maxChildren
    }

    function DepthCap(): nat {
      if maxDepth < 1 then 1 else if maxDepth > 6 then 6 else maxDepth
    }
  }

  const DEFAULT_POLICY := Policy([1], 6, 8, 200, 3, 400_000)

  /** A `tasks` row. Its id is its position in the table; `path` is the root's id and then ordinals. */
  datatype Task = Task(
    campaign: TaskId, parent: Option<TaskId>, path: seq<nat>, kind: TaskKind, state: TaskState,
    version: nat, attempts: nat, dependsOn: seq<TaskId>, policy: Option<Policy>,
    claimedBy: Option<Owner>, leaseUntil: Option<int>, updatedAt: int, supersededBy: Option<TaskId>)
  {
    function Depth(): int { |path| - 1 }

    function Ordinal(): nat {
      if |path| <= 1 then 1 else path[|path| - 1]
    }
  }

  datatype Note = Plain | PrApproved | AwaitingPrApproval | PollError | PolicyUpdated

  /** A `task_events` row; `version` is the task's version after the write. */
  datatype Event = Event(
    task: TaskId, from: Option<TaskState>, to: TaskState, actor: ActorClass, version: nat, note: Note)

  datatype AttemptKind = Planning | Work

  datatype AttemptOutcome =
    Pending | Execute | Split | NeedsInfo | Reject | Pr | Erred | TimedOut | LostLease

  /**
   * A key's four words. A caller may send any; for a claim the store mints one from the row's id, its new
   * version, the clock and the place in the claim.
   */
  datatype IdemKey = IdemKey(task: TaskId, version: nat, now: int, position: nat)

  /** A `task_attempts` row; its id is its position in the table. */
  datatype Attempt = Attempt(
    task: TaskId, kind: AttemptKind, idem: IdemKey, owner: Option<Owner>, outcome: AttemptOutcome,
    tokens: nat)

  datatype Db = Db(tasks: seq<Task>, events: seq<Event>, attempts: seq<Attempt>)

  type Outcome = Result<Db, Error>

  /** Rows refer only to parents inserted before them (the foreign key on `parent_id`). */
  predicate Rooted(db: Db) {
    forall i | 0 <= i < |db.tasks| :: db.tasks[i].parent.Some? ==> db.tasks[i].parent.value < i
  }

  function Get(db: Db, id: TaskId): (r: Result<Task, Error>)
    ensures r.Ok? <==> id < |db.tasks|
    ensures r.Ok? ==> r.value == db.tasks[id]
    ensures r.Err? ==> r.error == NotFound
  {
    if id < |db.tasks| then Ok(db.tasks[id]) else Err(NotFound)
  }

  // ---- reads over the tree ----

  /** The children of `p` among the first `n` rows, in id order, which is ordinal order. */
  function KidsBelow(tasks: seq<Task>, p: TaskId, n: nat): (kids: seq<TaskId>)
    requires n <= |tasks|
    ensures forall i | 0 <= i < |kids| :: kids[i] < n && tasks[kids[i]].parent == Some(p)
  {
    if n == 0 then []
    else KidsBelow(tasks, p, n - 1) + (if tasks[n - 1].parent == Some(p) then [n - 1] else [])
  }

  function Kids(db: Db, p: TaskId): (kids: seq<TaskId>)
    ensures forall i | 0 <= i < |kids| :: kids[i] < |db.tasks| && db.tasks[kids[i]].parent == Some(p)
  {
    KidsBelow(db.tasks, p, |db.tasks|)
  }

  function StatesOf(db: Db, ids: seq<TaskId>): (states: seq<TaskState>)
    requires forall i | 0 <= i < |ids| :: ids[i] < |db.tasks|
    ensures |states| == |ids|
    ensures forall i | 0 <= i < |ids| :: states[i] == db.tasks[ids[i]].state
  {
    seq(|ids|, i requires 0 <= i < |ids| => db.tasks[ids[i]].state)
  }

  function KidStates(db: Db, p: TaskId): seq<TaskState> {
    StatesOf(db, Kids(db, p))
  }

  predicate IsPrefix(a: seq<nat>, b: seq<nat>) {
    a <= b
  }

  /** `node` itself and every row whose path extends its path. */
  predicate InSubtree(db: Db, node: TaskId, id: TaskId)
    requires node < |db.tasks| && id < |db.tasks|
  {
    IsPrefix(db.tasks[node].path, db.tasks[id].path)
  }

  /** Lexicographic order on paths: a proper prefix comes first. */
  predicate Before(a: seq<nat>, b: seq<nat>) {
    if |b| == 0 then false
    else if |a| == 0 then true
    else a[0] < b[0] || (a[0] == b[0] && Before(a[1..], b[1..]))
  }

  function InsertBy(key: TaskId -> seq<nat>, id: TaskId, sorted: seq<TaskId>): seq<TaskId> {
    if |sorted| == 0 || Before(key(id), key(sorted[0])) then [id] + sorted
    else [sorted[0]] + InsertBy(key, id, sorted[1..])
  }

  function SortBy(key: TaskId -> seq<nat>, ids: seq<TaskId>): seq<TaskId> {
    if |ids| == 0 then [] else InsertBy(key, ids[|ids| - 1], SortBy(key, ids[..|ids| - 1]))
  }

  /** The ids below `n` that satisfy `keep`, ascending. */
  function Select(keep: TaskId -> bool, n: nat): seq<TaskId> {
    if n == 0 then [] else Select(keep, n - 1) + (if keep(n - 1) then [n - 1] else [])
  }

  function DepthPathKey(tasks: seq<Task>): TaskId -> seq<nat> {
    (i: TaskId) => if i < |tasks| then [|tasks[i].path|] + tasks[i].path else []
  }

  /** `node` and its descendants in `(depth, path)` order. */
  function Subtree(db: Db, node: TaskId): seq<TaskId>
    requires node < |db.tasks|
  {
    SortBy(DepthPathKey(db.tasks),
           Select((i: TaskId) => i < |db.tasks| && InSubtree(db, node, i), |db.tasks|))
  }

  function PolicyOf(db: Db, campaign: TaskId): Result<Policy, Error> {
    if campaign >= |db.tasks| then Err(NotFound)
    else Ok(if db.tasks[campaign].policy.Some? then db.tasks[campaign].policy.value else DEFAULT_POLICY)
  }

  function CampaignNodes(tasks: seq<Task>, campaign: TaskId): nat {
    if |tasks| == 0 then 0
    else CampaignNodes(tasks[..|tasks| - 1], campaign) + (if tasks[|tasks| - 1].campaign == campaign then 1 else 0)
  }

  function PlanTokens(db: Db, campaign: TaskId, n: nat): nat
    requires n <= |db.attempts|
  {
    if n == 0 then 0
    else
      var a := db.attempts[n - 1];
      PlanTokens(db, campaign, n - 1)
        + (if a.kind.Planning? && a.task < |db.tasks| && db.tasks[a.task].campaign == campaign then a.tokens else 0)
  }

  predicate IdemExists(db: Db, key: IdemKey) {
    exists i | 0 <= i < |db.attempts| :: db.attempts[i].idem == key
  }

  predicate HasAwaitingMark(db: Db, id: TaskId) {
    exists i | 0 <= i < |db.events| :: db.events[i].task == id && db.events[i].note.AwaitingPrApproval?
  }

  // ---- writes ----

  /** Replace one row. */
  function Put(db: Db, id: TaskId, t: Task): (db': Db)
    requires id < |db.tasks|
    ensures |db'.tasks| == |db.tasks|
  {
    db.(tasks := db.tasks[id := t])
  }

  /** The new row of a state write: version up, and the lease gone unless the new state is leased. */
  function Moved(t: Task, to: TaskState, now: int): Task {
    t.(state := to, version := t.version + 1, updatedAt := now,
       claimedBy := if to.IsLeased() then t.claimedBy else None,
       leaseUntil := if to.IsLeased() then t.leaseUntil else None)
  }

  /** Replace row `id` and append one event with its new state and version. */
  function Write(db: Db, id: TaskId, row: Task, from: TaskState, actor: ActorClass, note: Note): Db
    requires id < |db.tasks|
  {
    Put(db, id, row).(events := db.events + [Event(id, Some(from), row.state, actor, row.version, note)])
  }

  /**
   * The one state write: the table must allow it, then one row changes and one event is appended.
   * The row is locked, so the compare-and-swap on its version cannot miss.
   */
  function Transition(db: Db, id: TaskId, to: TaskState, actor: ActorClass, now: int): (r: Outcome)
    ensures r.Ok? && Rooted(db) ==> Rooted(r.value)
  {
    var t :- Get(db, id);
    :- Need(Allowed(t.state, to, t.kind, actor), Denied);
    Ok(Write(db, id, Moved(t, to, now), t.state, actor, Plain))
  }

  predicate IsOpen(a: Attempt, id: TaskId) {
    a.task == id && a.kind.Work? && a.outcome.Pending?
  }

  function CloseOne(a: Attempt, id: TaskId, owner: Option<Owner>, outcome: AttemptOutcome): Attempt {
    if IsOpen(a, id) && (owner.None? || a.owner == owner) then a.(outcome := outcome) else a
  }

  function CloseAttempts(attempts: seq<Attempt>, id: TaskId, owner: Option<Owner>, outcome: AttemptOutcome): (r: seq<Attempt>)
    ensures |r| == |attempts|
    ensures forall i | 0 <= i < |r| :: r[i] == CloseOne(attempts[i], id, owner, outcome)
  {
    seq(|attempts|, i requires 0 <= i < |attempts| => CloseOne(attempts[i], id, owner, outcome))
  }

  /** Close every pending `work` attempt on `id`, or only `owner`'s. */
  function CloseWork(db: Db, id: TaskId, owner: Option<Owner>, outcome: AttemptOutcome): Db {
    db.(attempts := CloseAttempts(db.attempts, id, owner, outcome))
  }

  /** Append an attempt; its key is unique in the table. */
  function InsertAttempt(db: Db, a: Attempt): (r: Outcome)
    ensures r.Ok? ==> r.value.tasks == db.tasks
  {
    var isNew := !IdemExists(db, a.idem);
    :- Need(isNew, AlreadyApplied);
    Ok(db.(attempts := db.attempts + [a]))
  }

  /** Append a row with its creation event. */
  function InsertTask(db: Db, t: Task, actor: ActorClass): Db {
    db.(tasks := db.tasks + [t], events := db.events + [Event(|db.tasks|, None, t.state, actor, t.version, Plain)])
  }

  /** `Ok(path.ordinal)` when the grammar has room for it. */
  function ChildPath(path: seq<nat>, ordinal: nat): Result<seq<nat>, Error> {
    if 1 <= ordinal <= 8 && |path| <= 6 then Ok(path + [ordinal]) else Err(Invalid)
  }

  /** The rollup pass from `parent` upward, stopping at the first unchanged ancestor. */
  function RollupFrom(db: Db, parent: Option<TaskId>, now: int): (r: Outcome)
    requires Rooted(db)
    requires parent.Some? ==> parent.value < |db.tasks|
    ensures r.Ok? ==> Rooted(r.value) && |r.value.tasks| == |db.tasks|
    decreases if parent.Some? then parent.value + 1 else 0
  {
    if parent.None? then Ok(db)
    else
      var p := db.tasks[parent.value];
      match Rollup(p.state, KidStates(db, parent.value))
      case None => Ok(db)
      case Some(next) =>
        var db1 :- Transition(db, parent.value, next, RollupPass, now);
        RollupFrom(db1, p.parent, now)
  }

  /** Block every `ready` sibling in `sibs` that depends on `leaf`. */
  function BlockEach(db: Db, leaf: TaskId, sibs: seq<TaskId>, now: int): (r: Outcome)
    ensures r.Ok? && Rooted(db) ==> Rooted(r.value)
    ensures r.Ok? ==> |r.value.tasks| == |db.tasks|
    decreases |sibs|
  {
    if |sibs| == 0 then Ok(db)
    else
      var s :- Get(db, sibs[0]);
      if s.state.Ready? && leaf in s.dependsOn then
        var db1 :- Transition(db, sibs[0], Blocked, RollupPass, now);
        BlockEach(db1, leaf, sibs[1..], now)
      else BlockEach(db, leaf, sibs[1..], now)
  }

  function BlockDependents(db: Db, leaf: TaskId, parent: Option<TaskId>, now: int): (r: Outcome)
    ensures r.Ok? && Rooted(db) ==> Rooted(r.value)
    ensures r.Ok? ==> |r.value.tasks| == |db.tasks|
  {
    if parent.None? then Ok(db) else BlockEach(db, leaf, Kids(db, parent.value), now)
  }
}
