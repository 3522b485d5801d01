/**
 * Each protocol's locks, in the order it asks for them, and what that order guarantees.
 *
 * A program lists the rows that a protocol locks on one state of the tables: the target and its ancestors
 * root first, a subtree by depth and path, siblings under a parent that is held. Programs are orderly, so
 * no interleaving of them deadlocks. The one request outside that order is the deferred foreign key from a
 * new row to its campaign's root, and the last part shows exactly what it costs.
 */
module CampaignLocks {
  import opened Outcomes
  import opened CampaignRules
  import opened CampaignTables
  import opened CampaignProtocols
  import opened CampaignInvariants
  import opened CampaignSafety
  import opened CampaignRuns
  import opened LockSystem
  import opened CampaignWalk
  import CampaignExample

  // ---- what each protocol asks for ----

  /** Every proper ancestor, root first, and then the node. */
  function Line(path: Path): (locks: seq<Lock>)
    ensures |locks| == |path|
    ensures forall k | 0 <= k < |path| :: locks[k] == ForUpdate(path[..k + 1])
  {
    seq(|path|, k requires 0 <= k < |path| => ForUpdate(path[..k + 1]))
  }

  /** The rollup pass over the proper ancestors, parent upward. */
  function Upward(path: Path): (locks: seq<Lock>)
    ensures forall k | 0 <= k < |locks| :: 1 <= |locks[k].row| < |path| && locks[k] == ForUpdate(path[..|locks[k].row|])
  {
    if |path| <= 1 then []
    else seq(|path| - 1, k requires 0 <= k < |path| - 1 => ForUpdate(path[..|path| - 1 - k]))
  }

  function Rows(db: Db, ids: seq<TaskId>): (locks: seq<Lock>)
    requires forall k | 0 <= k < |ids| :: ids[k] < |db.tasks|
    ensures |locks| == |ids|
    ensures forall k | 0 <= k < |ids| :: locks[k] == ForUpdate(db.tasks[ids[k]].path)
  {
    seq(|ids|, k requires 0 <= k < |ids| => ForUpdate(db.tasks[ids[k]].path))
  }

  function Keep(keep: TaskId -> bool, ids: seq<TaskId>): (kept: seq<TaskId>)
    ensures forall k | 0 <= k < |kept| :: kept[k] in ids && keep(kept[k])
  {
    if |ids| == 0 then []
    else (if keep(ids[0]) then [ids[0]] else []) + Keep(keep, ids[1..])
  }

  /** The siblings that a failure of `id` blocks, by ordinal. */
  function Dependents(db: Db, id: TaskId): (ids: seq<TaskId>)
    requires id < |db.tasks|
    ensures forall k | 0 <= k < |ids| ::
      db.tasks[id].parent.Some? && ids[k] < |db.tasks| && db.tasks[ids[k]].parent == db.tasks[id].parent
  {
    if db.tasks[id].parent.None? then []
    else
      Keep((c: TaskId) => c < |db.tasks| && db.tasks[c].state.Ready? && id in db.tasks[c].dependsOn,
           Kids(db, db.tasks[id].parent.value))
  }

  function Waiting(db: Db, p: TaskId): (ids: seq<TaskId>)
    ensures forall k | 0 <= k < |ids| :: ids[k] < |db.tasks| && db.tasks[ids[k]].parent == Some(p)
  {
    Keep((c: TaskId) => c < |db.tasks| && db.tasks[c].state.AwaitingApproval?, Kids(db, p))
  }

  function SubtreeRows(db: Db, id: TaskId): (ids: seq<TaskId>)
    requires id < |db.tasks|
    ensures forall k | 0 <= k < |ids| :: ids[k] < |db.tasks|
  {
    SubtreeMembers(db, id);
    assert forall k | 0 <= k < |Subtree(db, id)| :: Subtree(db, id)[k] in Subtree(db, id);
    Subtree(db, id)
  }

  /** A statement that passes over locked rows. */
  predicate Skips(op: Op) {
    op.ClaimOp? || op.ReapOp? || op.ReapDecomposingOp?
  }

  predicate Aims(db: Db, op: Op) {
    !Skips(op) && !op.CreateOp? && op.task < |db.tasks|
  }

  /**
   * The locks that a call asks for once its guards have passed, in order. With `fk`, also the one that the
   * deferred foreign key of a decomposition's new rows takes on the campaign's root at commit. The rows on the
   * way back up are held by then, so a rollup pass that stops early, or is not made, asks for nothing less.
   */
  function Program(db: Db, op: Op, fk: bool): seq<Lock> {
    if !Aims(db, op) then []
    else
      var id := op.task;
      var path := db.tasks[id].path;
      match op
      case PlanStartOp(_) => Line(path) + Upward(path)
      case PlanCloseOp(_, _, _, _, _, _) => Line(path) + Upward(path)
      case RetryOp(_, _) => Line(path) + Upward(path)
      case FailOp(_, _, _, _) => Line(path) + Rows(db, Dependents(db, id)) + Upward(path)
      case ResolveReviewOp(_, merged) => Line(path) + (if merged then [] else Rows(db, Dependents(db, id))) + Upward(path)
      case CancelOp(_, _) => Line(path) + Rows(db, SubtreeRows(db, id)) + Upward(path)
      case ReplanOp(_, _) => Line(path) + Rows(db, SubtreeRows(db, id))
      case ApproveChildrenOp(_, _) => [ForUpdate(path)] + Rows(db, Waiting(db, id))
      case DecomposeOp(_, _, _, _, _, _) =>
        [ForUpdate(path)]
        + (if fk && db.tasks[id].campaign < |db.tasks| then [KeyShare(db.tasks[db.tasks[id].campaign].path)] else [])
      case _ => [ForUpdate(path)]
  }

  /** The locks that a call which is refused has asked for by then: none when it is refused at the door. */
  function Refused(db: Db, op: Op): seq<Lock> {
    if !Aims(db, op) then []
    else
      var t := db.tasks[op.task];
      match op
      case PlanStartOp(_) => if t.kind.Leaf? || !t.state.Ready? then [] else Line(t.path)
      case DecomposeOp(_, _, key, _, _, _) => if IdemExists(db, key) then [] else [ForUpdate(t.path)]
      case MarkLeafOp(_, _, key, _, _) => if IdemExists(db, key) then [] else [ForUpdate(t.path)]
      case PlanCloseOp(_, _, key, _, _, _) => if IdemExists(db, key) || t.kind.Leaf? then [] else Line(t.path)
      case HeartbeatOp(_, _, _) => []
      case FailOp(_, _, _, _) => Line(t.path)
      case ResolveReviewOp(_, _) => Line(t.path)
      case ApproveOp(_, _, actor) => if actor.User? then [ForUpdate(t.path)] else []
      case ApproveChildrenOp(_, actor) => if actor.User? then [ForUpdate(t.path)] else []
      case AnswerOp(_, _, actor, _) => if actor.User? then [ForUpdate(t.path)] else []
      case RetryOp(_, actor) => if actor.User? then Line(t.path) else []
      case UpdatePolicyOp(_, policy, actor) => if actor.User? && policy.Valid() then [ForUpdate(t.path)] else []
      case CancelOp(_, actor) =>
        if !actor.User? || t.state.IsTerminal() then [] else Line(t.path) + Rows(db, SubtreeRows(db, op.task))
      case ReplanOp(_, actor) =>
        if !actor.User? || t.kind.Leaf? then []
        else Line(t.path) + (if t.state.Decomposed? || t.state.Blocked? then Rows(db, SubtreeRows(db, op.task)) else [])
      case _ => [ForUpdate(t.path)]
  }

  /** The locks that a call asks for: only one that commits gets as far as the foreign key's check. */
  function Asked(db: Db, op: Op, now: int, fk: bool): seq<Lock>
    requires Rooted(db)
  {
    if Apply(db, op, now).Ok? then Program(db, op, fk) else Refused(db, op)
  }

  // ---- every program is orderly ----

  lemma LineIsOrderly(path: Path)
    ensures Orderly([], Line(path))
  {
    hide Line;
    var locks := Line(path);
    forall k | 0 < k < |locks|
      ensures Under([] + locks[..k], locks[k])
    {
      LineStep(path, k);
      assert [] + locks[..k] == locks[..k];
    }
  }

  lemma LineStep(path: Path, k: nat)
    requires 0 < k < |path|
    ensures Under(Line(path)[..k], Line(path)[k])
  {
    assert path[..k + 1][..k] == path[..k];
    assert Line(path)[..k][k - 1] == ForUpdate(path[..k]);
  }

  /** Once the line to a node is held, so is every row on it. */
  lemma LineHolds(path: Path, n: nat)
    requires 1 <= n <= |path|
    ensures ForUpdate(path[..n]) in Line(path)
  {
    assert Line(path)[n - 1] == ForUpdate(path[..n]);
  }

  lemma UpwardIsOrderly(path: Path, held: seq<Lock>)
    requires forall l | l in Line(path) :: l in held
    ensures Orderly(held, Upward(path))
  {
    var locks := Upward(path);
    forall k | 0 <= k < |locks|
      ensures Under(held + locks[..k], locks[k])
    {
      LineHolds(path, |locks[k].row|);
    }
  }

  /** Children of a row that is held. */
  lemma ChildrenAreOrderly(db: Db, p: TaskId, ids: seq<TaskId>, held: seq<Lock>)
    requires TreeOk(db) && p < |db.tasks|
    requires forall k | 0 <= k < |ids| :: ids[k] < |db.tasks| && db.tasks[ids[k]].parent == Some(p)
    requires ForUpdate(db.tasks[p].path) in held
    ensures Orderly(held, Rows(db, ids))
  {
    var locks := Rows(db, ids);
    assert NodeOk(db, p);
    forall k | 0 <= k < |locks|
      ensures Under(held + locks[..k], locks[k])
    {
      assert NodeOk(db, ids[k]);
      assert locks[k].row[..|locks[k].row| - 1] == db.tasks[p].path;
    }
  }

  // ---- subtrees come by depth, so a parent before its children ----

  ghost predicate ByDepth(tasks: seq<Task>, ids: seq<TaskId>) {
    && (forall k | 0 <= k < |ids| :: ids[k] < |tasks|)
    && forall a, b | 0 <= a < b < |ids| :: |tasks[ids[a]].path| <= |tasks[ids[b]].path|
  }

  lemma {:induction false} InsertKeepsDepth(tasks: seq<Task>, id: TaskId, sorted: seq<TaskId>)
    requires ByDepth(tasks, sorted) && id < |tasks|
    ensures ByDepth(tasks, InsertBy(DepthPathKey(tasks), id, sorted))
    ensures forall x | x in InsertBy(DepthPathKey(tasks), id, sorted) :: x == id || x in sorted
  {
    var key := DepthPathKey(tasks);
    if |sorted| > 0 && !Before(key(id), key(sorted[0])) {
      var rest := InsertBy(key, id, sorted[1..]);
      InsertKeepsDepth(tasks, id, sorted[1..]);
      assert |tasks[sorted[0]].path| <= |tasks[id].path|;
      forall b | 0 <= b < |rest|
        ensures |tasks[sorted[0]].path| <= |tasks[rest[b]].path|
      {
        assert rest[b] in rest;
      }
    }
  }

  lemma {:induction false} SortIsByDepth(tasks: seq<Task>, ids: seq<TaskId>)
    requires forall k | 0 <= k < |ids| :: ids[k] < |tasks|
    ensures ByDepth(tasks, SortBy(DepthPathKey(tasks), ids))
  {
    if |ids| > 0 {
      SortIsByDepth(tasks, ids[..|ids| - 1]);
      InsertKeepsDepth(tasks, ids[|ids| - 1], SortBy(DepthPathKey(tasks), ids[..|ids| - 1]));
    }
  }

  lemma SubtreeIsByDepth(db: Db, id: TaskId)
    requires id < |db.tasks|
    ensures ByDepth(db.tasks, Subtree(db, id))
  {
    var keep := (i: TaskId) => i < |db.tasks| && InSubtree(db, id, i);
    SelectMembers(keep, |db.tasks|);
    assert forall k | 0 <= k < |Select(keep, |db.tasks|)| :: Select(keep, |db.tasks|)[k] in Select(keep, |db.tasks|);
    SortIsByDepth(db.tasks, Select(keep, |db.tasks|));
  }

  /** A row of the subtree other than its top has its parent in the subtree. */
  lemma ParentInSubtree(db: Db, top: TaskId, c: TaskId)
    requires TreeOk(db) && top < |db.tasks| && c < |db.tasks| && InSubtree(db, top, c)
    requires db.tasks[c].path != db.tasks[top].path
    ensures db.tasks[c].parent.Some? && db.tasks[c].parent.value < c && InSubtree(db, top, db.tasks[c].parent.value)
  {
    assert NodeOk(db, c) && NodeOk(db, top);
  }

  lemma ParentComesEarlier(db: Db, id: TaskId, k: nat) returns (m: nat)
    requires TreeOk(db) && id < |db.tasks| && k < |SubtreeRows(db, id)|
    requires db.tasks[SubtreeRows(db, id)[k]].path != db.tasks[id].path
    ensures m < k
    ensures var path := db.tasks[SubtreeRows(db, id)[k]].path;
      |path| >= 2 && db.tasks[SubtreeRows(db, id)[m]].path == path[..|path| - 1]
  {
    var ids := SubtreeRows(db, id);
    SubtreeMembers(db, id);
    SubtreeIsByDepth(db, id);
    assert ids[k] in ids;
    ParentInSubtree(db, id, ids[k]);
    var p := db.tasks[ids[k]].parent.value;
    assert p in ids;
    ParentPath(db, ids[k]);
    m :| 0 <= m < |ids| && ids[m] == p;
    ShallowerIsEarlier(db.tasks, ids, m, k);
  }

  lemma ShallowerIsEarlier(tasks: seq<Task>, ids: seq<TaskId>, m: nat, k: nat)
    requires ByDepth(tasks, ids) && m < |ids| && k < |ids| && |tasks[ids[m]].path| < |tasks[ids[k]].path|
    ensures m < k
  {
  }

  lemma ParentPath(db: Db, c: TaskId)
    requires TreeOk(db) && c < |db.tasks| && db.tasks[c].parent.Some?
    ensures var path := db.tasks[c].path;
      |path| >= 2 && db.tasks[c].parent.value < c && db.tasks[db.tasks[c].parent.value].path == path[..|path| - 1]
  {
    assert NodeOk(db, c) && NodeOk(db, db.tasks[c].parent.value);
  }

  lemma HeldEarlier(held: seq<Lock>, locks: seq<Lock>, m: nat, k: nat)
    requires m < k < |locks| && locks[m].ForUpdate?
    requires |locks[k].row| >= 2 && locks[m].row == locks[k].row[..|locks[k].row| - 1]
    ensures Under(held + locks[..k], locks[k])
  {
    assert locks[..k][m] in held + locks[..k];
  }

  lemma HeldAlready(held: seq<Lock>, locks: seq<Lock>, k: nat)
    requires k < |locks| && ForUpdate(locks[k].row) in held
    ensures Under(held + locks[..k], locks[k])
  {
  }

  lemma SubtreeIsOrderly(db: Db, id: TaskId, held: seq<Lock>)
    requires TreeOk(db) && id < |db.tasks|
    requires ForUpdate(db.tasks[id].path) in held
    ensures Orderly(held, Rows(db, SubtreeRows(db, id)))
  {
    var ids := SubtreeRows(db, id);
    var locks := Rows(db, ids);
    forall k | 0 <= k < |locks|
      ensures Under(held + locks[..k], locks[k])
    {
      if db.tasks[ids[k]].path != db.tasks[id].path {
        var m := ParentComesEarlier(db, id, k);
        HeldEarlier(held, locks, m, k);
      } else {
        HeldAlready(held, locks, k);
      }
    }
  }

  /** Every protocol, over any tables that satisfy the invariants, asks in an orderly way. */
  lemma ProgramsAreOrderly(db: Db, op: Op, fk: bool)
    requires Inv(db)
    ensures Orderly([], Program(db, op, fk))
    ensures !fk ==> AllForUpdate(Program(db, op, fk))
  {
    hide Inv, TreeOk, Orderly, Line, Upward, Rows, SubtreeRows, Dependents, Waiting;
    SoundTree(db);
    if !Aims(db, op) {
      NothingIsOrderly([]);
    } else if op.PlanStartOp? || op.PlanCloseOp? || op.RetryOp? {
      RisingIsOrderly(db, op, fk);
    } else if op.FailOp? || op.ResolveReviewOp? {
      FailureIsOrderly(db, op, fk);
    } else if op.CancelOp? || op.ReplanOp? {
      SubtreeProgramIsOrderly(db, op, fk);
    } else if op.ApproveChildrenOp? {
      ApprovalsAreOrderly(db, op.task);
    } else {
      ShortProgramIsOrderly(db, op, fk);
    }
  }

  lemma NothingIsOrderly(held: seq<Lock>)
    ensures Orderly(held, []) && AllForUpdate([])
  {
  }

  lemma RisingIsOrderly(db: Db, op: Op, fk: bool)
    requires Aims(db, op) && (op.PlanStartOp? || op.PlanCloseOp? || op.RetryOp?)
    ensures Orderly([], Program(db, op, fk)) && AllForUpdate(Program(db, op, fk))
  {
    var path := db.tasks[op.task].path;
    assert Program(db, op, fk) == Line(path) + Upward(path);
    hide Program, Line, Upward, Orderly, AllForUpdate;
    NothingIsOrderly(Line(path));
    LineAndUpward(path, []);
    assert Line(path) + [] == Line(path);
  }

  lemma FailureIsOrderly(db: Db, op: Op, fk: bool)
    requires TreeOk(db) && Aims(db, op) && (op.FailOp? || op.ResolveReviewOp?)
    ensures Orderly([], Program(db, op, fk)) && AllForUpdate(Program(db, op, fk))
  {
    var path := db.tasks[op.task].path;
    var middle := if op.ResolveReviewOp? && op.merged then [] else Rows(db, Dependents(db, op.task));
    assert Program(db, op, fk) == Line(path) + middle + Upward(path);
    hide TreeOk, Program, Line, Upward, Orderly, Dependents;
    NothingIsOrderly(Line(path));
    SiblingsAreOrderly(db, op.task);
    LineAndUpward(path, middle);
  }

  lemma SubtreeProgramIsOrderly(db: Db, op: Op, fk: bool)
    requires TreeOk(db) && Aims(db, op) && (op.CancelOp? || op.ReplanOp?)
    ensures Orderly([], Program(db, op, fk)) && AllForUpdate(Program(db, op, fk))
  {
    var path := db.tasks[op.task].path;
    var middle := Rows(db, SubtreeRows(db, op.task));
    assert Program(db, op, fk) == Line(path) + middle + (if op.CancelOp? then Upward(path) else []);
    hide TreeOk, Program, Line, Upward, Orderly, SubtreeRows;
    TopIsHeld(db, op.task);
    SubtreeIsOrderly(db, op.task, Line(path));
    LineAndUpward(path, middle);
    assert Line(path) + middle + [] == Line(path) + middle;
  }

  /** One row, and for a decomposition the key share after it. */
  lemma ShortProgramIsOrderly(db: Db, op: Op, fk: bool)
    requires Aims(db, op)
    requires |Program(db, op, fk)| <= 2 && |Program(db, op, fk)| >= 1 && Program(db, op, fk)[0].ForUpdate?
    requires |Program(db, op, fk)| == 2 ==> fk && Program(db, op, fk)[1].KeyShare?
    ensures Orderly([], Program(db, op, fk))
    ensures !fk ==> AllForUpdate(Program(db, op, fk))
  {
    var todo := Program(db, op, fk);
    assert [] + todo[..0] == [];
  }

  lemma TopIsHeld(db: Db, id: TaskId)
    requires TreeOk(db) && id < |db.tasks|
    ensures ForUpdate(db.tasks[id].path) in Line(db.tasks[id].path)
  {
    var path := db.tasks[id].path;
    assert NodeOk(db, id);
    assert path[..|path|] == path;
    LineHolds(path, |path|);
  }

  lemma ApprovalsAreOrderly(db: Db, id: TaskId)
    requires TreeOk(db) && id < |db.tasks|
    ensures Orderly([], [ForUpdate(db.tasks[id].path)] + Rows(db, Waiting(db, id)))
  {
    var first := [ForUpdate(db.tasks[id].path)];
    assert [] + first == first;
    ChildrenAreOrderly(db, id, Waiting(db, id), first);
    OrderlyThen([], first, Rows(db, Waiting(db, id)));
  }

  lemma SiblingsAreOrderly(db: Db, id: TaskId)
    requires TreeOk(db) && id < |db.tasks|
    ensures Orderly(Line(db.tasks[id].path), Rows(db, Dependents(db, id)))
  {
    var path := db.tasks[id].path;
    if db.tasks[id].parent.Some? {
      assert NodeOk(db, id) && NodeOk(db, db.tasks[id].parent.value);
      LineHolds(path, |path| - 1);
      ChildrenAreOrderly(db, db.tasks[id].parent.value, Dependents(db, id), Line(path));
    }
  }

  /** A program from the start, in two parts. */
  lemma OrderlyFromStart(a: seq<Lock>, b: seq<Lock>)
    requires Orderly([], a) && AllForUpdate(a) && Orderly(a, b)
    ensures Orderly([], a + b)
    ensures AllForUpdate(b) ==> AllForUpdate(a + b)
  {
    hide Orderly;
    assert [] + a == a;
    OrderlyThen([], a, b);
  }

  lemma RowsOfLine(path: Path)
    ensures AllForUpdate(Line(path)) && AllForUpdate(Upward(path))
  {
  }

  /** Down the line to the node, then rows that are orderly from there, then the rollup pass. */
  lemma LineAndUpward(path: Path, middle: seq<Lock>)
    requires Orderly(Line(path), middle) && AllForUpdate(middle)
    ensures Orderly([], Line(path) + middle) && AllForUpdate(Line(path) + middle)
    ensures Orderly([], Line(path) + middle + Upward(path)) && AllForUpdate(Line(path) + middle + Upward(path))
  {
    hide Line, Upward, Orderly, AllForUpdate;
    LineIsOrderly(path);
    RowsOfLine(path);
    OrderlyFromStart(Line(path), middle);
    UpwardIsOrderly(path, Line(path) + middle);
    OrderlyFromStart(Line(path) + middle, Upward(path));
  }

  // ---- what a refused call asks for begins what it would have asked for ----

  lemma RefusedBegins(db: Db, op: Op)
    ensures Refused(db, op) <= Program(db, op, false)
  {
    hide Line, Upward, Rows, SubtreeRows, Dependents, Waiting, IdemExists;
    if Aims(db, op) && op.ReplanOp? {
      var line := Line(db.tasks[op.task].path);
      assert line + [] == line;
    }
  }

  lemma BeginningIsOrderly(todo: seq<Lock>, begun: seq<Lock>)
    requires Orderly([], todo) && AllForUpdate(todo) && begun <= todo
    ensures Orderly([], begun) && AllForUpdate(begun)
  {
    forall k | 0 <= k < |begun|
      ensures begun[..k] == todo[..k] && begun[k] == todo[k]
    {
    }
  }

  /**
   * A failure, a review or an approval of children that is refused was refused on its own row: past those
   * guards nothing fails, so no sibling and no child was locked.
   */
  lemma RefusedOnItsOwnRow(db: Db, op: Op, now: int)
    requires Inv(db) && Aims(db, op) && Apply(db, op, now).Err?
    ensures var t := db.tasks[op.task];
      && (op.FailOp? ==> t.claimedBy != Some(op.owner) || !t.state.Running? || !op.checked)
      && (op.ResolveReviewOp? ==> !t.state.InReview? || !t.kind.Leaf?)
      && (op.ApproveChildrenOp? ==> !op.actor.User?)
  {
    hide Inv, Fail, ResolveReview, ApproveEach, Kids;
    var t := db.tasks[op.task];
    if op.FailOp? && t.claimedBy == Some(op.owner) && t.state.Running? && op.checked {
      FailureGoes(db, op.task, op.owner, op.timedOut, now);
    } else if op.ResolveReviewOp? && t.state.InReview? && t.kind.Leaf? {
      ReviewGoes(db, op.task, op.merged, now);
    } else if op.ApproveChildrenOp? {
      ApprovingGoes(db, Kids(db, op.task), now);
    }
  }

  lemma ReviewGoes(db: Db, id: TaskId, merged: bool, now: int)
    requires Inv(db) && id < |db.tasks| && db.tasks[id].state.InReview? && db.tasks[id].kind.Leaf?
    ensures ResolveReview(db, id, merged, now).Ok?
  {
    hide Inv, BlockDependents, RollupFrom;
    var to := if merged then Done else Failed;
    Transits(db, id, to, Poller, now);
    TransitionKeeps(db, id, to, Poller, now);
    var db1 := Transition(db, id, to, Poller, now).value;
    BlockingAndRollupGo(db1, id, now);
    SoundTree(db1);
    ParentIsInner(db1, id);
    RollupKeeps(db1, db.tasks[id].parent, now);
  }

  lemma {:induction false} ApprovingGoes(db: Db, ids: seq<TaskId>, now: int)
    requires forall k | 0 <= k < |ids| :: ids[k] < |db.tasks|
    ensures ApproveEach(db, ids, now).Ok?
    decreases |ids|
  {
    if |ids| > 0 {
      assert forall k | 0 <= k < |ids| - 1 :: ids[1..][k] == ids[k + 1];
      ApprovingGoes(if db.tasks[ids[0]].state.AwaitingApproval? then Transition(db, ids[0], Ready, User, now).value else db,
                    ids[1..], now);
    }
  }

  /** Every call, committed or refused, asks in an orderly way, and refused it asks for no key share. */
  lemma AskedIsOrderly(db: Db, op: Op, now: int, fk: bool)
    requires Inv(db)
    ensures Orderly([], Asked(db, op, now, fk))
    ensures !fk || !op.DecomposeOp? || Apply(db, op, now).Err? ==> AllForUpdate(Asked(db, op, now, fk))
  {
    hide Inv, Apply, Orderly, AllForUpdate, Refused;
    ProgramsAreOrderly(db, op, fk);
    ProgramsAreOrderly(db, op, false);
    RefusedBegins(db, op);
    BeginningIsOrderly(Program(db, op, false), Refused(db, op));
    OnlySplitsNeedKeys(db, op);
  }

  lemma OnlySplitsNeedKeys(db: Db, op: Op)
    ensures !op.DecomposeOp? ==> Program(db, op, true) == Program(db, op, false)
  {
    hide Line, Upward, Rows, SubtreeRows, Dependents, Waiting;
  }

  // ---- no deadlock, up to the foreign key ----

  lemma {:induction false} RootOfCampaign(db: Db, id: TaskId)
    requires TreeOk(db) && id < |db.tasks|
    ensures |db.tasks[id].path| >= 1 && db.tasks[id].campaign < |db.tasks|
    ensures db.tasks[db.tasks[id].campaign].path == [db.tasks[id].campaign]
    ensures db.tasks[id].path[..1] == [db.tasks[id].campaign]
  {
    assert NodeOk(db, id);
    if db.tasks[id].parent.Some? {
      var p := db.tasks[id].parent.value;
      RootOfCampaign(db, p);
      assert NodeOk(db, p);
      assert db.tasks[id].path[..1] == db.tasks[p].path[..1];
    }
  }

  /** Some request of the program is outside everything asked for before it. */
  ghost predicate Strays(todo: seq<Lock>) {
    exists k | 0 < k < |todo| :: !Under(todo[..k], todo[k])
  }

  /** A decomposition of a node below the root that commits. */
  predicate SplitsDeep(db: Db, op: Op, now: int)
    requires Rooted(db)
  {
    Aims(db, op) && op.DecomposeOp? && |db.tasks[op.task].path| >= 2 && Apply(db, op, now).Ok?
  }

  /** With the foreign key in force, exactly the committed decomposition of a node below the root strays. */
  lemma OnlyDeepDecompositionsStray(db: Db, op: Op, now: int)
    requires Inv(db)
    ensures Strays(Asked(db, op, now, true)) <==> SplitsDeep(db, op, now)
  {
    hide Inv, Apply, Program, Refused, Strays, Orderly;
    SoundTree(db);
    AskedIsOrderly(db, op, now, true);
    if op.DecomposeOp? && Apply(db, op, now).Ok? {
      SplitStraysExactly(db, op);
    } else {
      OrderlyRowsAreStraight(Asked(db, op, now, true));
    }
  }

  lemma SplitStraysExactly(db: Db, op: Op)
    requires Inv(db) && op.DecomposeOp?
    ensures Strays(Program(db, op, true)) <==> Aims(db, op) && |db.tasks[op.task].path| >= 2
  {
    hide Inv, Apply;
    if Aims(db, op) {
      SplitAsks(db, op);
      var path := db.tasks[op.task].path;
      var todo := Program(db, op, true);
      assert todo[..1] == [ForUpdate(path)];
      if |path| == 1 {
        assert path[..1] == path;
      } else {
        assert !Under(todo[..1], todo[1]);
      }
    }
  }

  lemma OrderlyRowsAreStraight(todo: seq<Lock>)
    requires Orderly([], todo) && AllForUpdate(todo)
    ensures !Strays(todo)
  {
    forall k | 0 < k < |todo|
      ensures Under(todo[..k], todo[k])
    {
      assert [] + todo[..k] == todo[..k];
    }
  }

  /** Every program that begins is some call's, committed or refused, over tables that satisfy the invariants. */
  ghost predicate FromProtocols(moves: seq<Move>, fk: bool) {
    forall k | 0 <= k < |moves| && moves[k].Begin? :: IsProtocol(moves[k].program, fk)
  }

  ghost predicate IsProtocol(program: seq<Lock>, fk: bool) {
    exists db, op, now :: Inv(db) && program == Asked(db, op, now, fk)
  }

  lemma ProtocolsAreLawful(moves: seq<Move>, fk: bool)
    requires FromProtocols(moves, fk)
    ensures Lawful(moves)
    ensures !fk ==> RowsOnly(moves)
  {
    hide Asked, Orderly, AllForUpdate;
    forall k | 0 <= k < |moves| && moves[k].Begin?
      ensures Orderly([], moves[k].program) && (!fk ==> AllForUpdate(moves[k].program))
    {
      assert IsProtocol(moves[k].program, fk);
      var db, op, now :| Inv(db) && moves[k].program == Asked(db, op, now, fk);
      AskedIsOrderly(db, op, now, fk);
    }
  }

  /** The row locks that the protocols ask for never deadlock, in any interleaving. */
  lemma ProtocolsNeverDeadlock(moves: seq<Move>, group: set<nat>)
    requires FromProtocols(moves, false)
    ensures !Deadlocked(Interleave(moves), group)
  {
    hide FromProtocols, Deadlocked;
    ProtocolsAreLawful(moves, false);
    RowLocksNeverDeadlock(moves, group);
  }

  /** In any interleaving, while anyone waits, someone can take its next lock or commit. */
  lemma ProtocolsProgress(moves: seq<Move>, i: nat) returns (k: nat)
    requires FromProtocols(moves, false) && i < |Interleave(moves)| && Asks(Interleave(moves)[i])
    ensures CanMove(Interleave(moves), k)
  {
    hide FromProtocols, Interleave;
    ProtocolsAreLawful(moves, false);
    k := SomeoneMoves(moves, i);
  }

  // ---- with the foreign key: exactly which calls can deadlock ----

  /** Programs that never stray never deadlock, the foreign key in force or not. */
  lemma StraightNeverDeadlock(moves: seq<Move>, group: set<nat>)
    requires FromProtocols(moves, true)
    requires forall k | 0 <= k < |moves| && moves[k].Begin? :: !Strays(moves[k].program)
    ensures !Deadlocked(Interleave(moves), group)
  {
    hide FromProtocols, Strays, Interleave, Deadlocked;
    if Deadlocked(Interleave(moves), group) {
      ProtocolsAreLawful(moves, true);
      DeadlockNeedsEscape(moves, group);
      var i :| i in group && i < |Interleave(moves)| && Escapes(Interleave(moves)[i]) && Interleave(moves)[i].todo[0].KeyShare?;
      StraightStaysStraight(moves, i);
      StraightDoesNotEscape(Interleave(moves)[i]);
    }
  }

  lemma StraightDoesNotEscape(t: Tx)
    requires t.Caller? && !Strays(t.held + t.todo)
    ensures !Escapes(t)
  {
    if Asks(t) && t.held != [] {
      var whole := t.held + t.todo;
      assert whole[..|t.held|] == t.held && whole[|t.held|] == t.todo[0];
    }
  }

  /** What a transaction holds and what it still asks for make up the program it began with. */
  lemma {:induction false} StraightStaysStraight(moves: seq<Move>, i: nat)
    requires forall k | 0 <= k < |moves| && moves[k].Begin? :: !Strays(moves[k].program)
    requires i < |Interleave(moves)| && Interleave(moves)[i].Caller?
    ensures !Strays(Interleave(moves)[i].held + Interleave(moves)[i].todo)
  {
    if |moves| > 0 {
      var before := Interleave(moves[..|moves| - 1]);
      var m := moves[|moves| - 1];
      NextWhole(before, m, i);
      if i < |before| && before[i].Caller? {
        StraightStaysStraight(moves[..|moves| - 1], i);
      }
    }
  }

  lemma NextWhole(s: seq<Tx>, m: Move, i: nat)
    requires i < |Next(s, m)| && Next(s, m)[i].Caller?
    ensures var whole := Next(s, m)[i].held + Next(s, m)[i].todo;
      || whole == []
      || (m.Begin? && whole == m.program)
      || (i < |s| && s[i].Caller? && whole == s[i].held + s[i].todo)
  {
    if m.Begin? {
      assert [] + m.program == m.program;
    } else if m == Grant(i) && i < |s| && Asks(s[i]) {
      assert s[i].held + [s[i].todo[0]] + s[i].todo[1..] == s[i].held + s[i].todo;
    }
  }

  /** Whoever deadlocks includes a transaction that waits, at its commit, for the foreign key's lock. */
  lemma DeadlockNeedsForeignKey(moves: seq<Move>, group: set<nat>)
    requires FromProtocols(moves, true) && Deadlocked(Interleave(moves), group)
    ensures exists i | i in group :: i < |Interleave(moves)| && Escapes(Interleave(moves)[i]) && Interleave(moves)[i].todo[0].KeyShare?
  {
    hide FromProtocols, Interleave, Deadlocked;
    ProtocolsAreLawful(moves, true);
    DeadlockNeedsEscape(moves, group);
  }

  /** Some interleaving of this call with calls that do not stray is deadlocked. */
  ghost predicate CanDeadlock(db: Db, op: Op, now: int)
    requires Rooted(db)
  {
    exists moves, group :: DeadlocksWith(db, op, now, moves, group)
  }

  ghost predicate DeadlocksWith(db: Db, op: Op, now: int, moves: seq<Move>, group: set<nat>)
    requires Rooted(db)
  {
    && Deadlocked(Interleave(moves), group)
    && forall k | 0 <= k < |moves| && moves[k].Begin? ::
      moves[k].program == Asked(db, op, now, true) || (IsProtocol(moves[k].program, true) && !Strays(moves[k].program))
  }

  /**
   * With the foreign key in force, exactly the decomposition of a node below the root that commits can
   * deadlock; a call that is refused never does.
   */
  lemma DeadlocksExactly(db: Db, op: Op, now: int)
    requires Inv(db)
    ensures CanDeadlock(db, op, now) <==> SplitsDeep(db, op, now)
  {
    hide Inv, Apply, SplitsDeep, Asked, Strays, Deadlocked, Interleave;
    SoundTree(db);
    OnlyDeepDecompositionsStray(db, op, now);
    if SplitsDeep(db, op, now) {
      var close, moves := PlanCloseMeetsSplit(db, op, now);
      DeadlockOfTwo(db, op, close, now, moves);
      assert DeadlocksWith(db, op, now, moves, {0, 1});
    } else if CanDeadlock(db, op, now) {
      var moves, group :| DeadlocksWith(db, op, now, moves, group);
      assert IsProtocol(Asked(db, op, now, true), true);
      StraightNeverDeadlock(moves, group);
    }
  }

  /** These two calls alone, each begun on this store, are deadlocked after these moves. */
  ghost predicate DeadlockTogether(db: Db, op: Op, other: Op, now: int, moves: seq<Move>)
    requires Rooted(db)
  {
    && Deadlocked(Interleave(moves), {0, 1})
    && forall k | 0 <= k < |moves| && moves[k].Begin? ::
      moves[k].program == Asked(db, op, now, true) || moves[k].program == Asked(db, other, now, true)
  }

  lemma DeadlockOfTwo(db: Db, op: Op, other: Op, now: int, moves: seq<Move>)
    requires Inv(db) && DeadlockTogether(db, op, other, now, moves) && !SplitsDeep(db, other, now)
    ensures DeadlocksWith(db, op, now, moves, {0, 1})
  {
    hide Inv, Apply, SplitsDeep, Asked, Strays, Deadlocked, Interleave;
    SoundTree(db);
    OnlyDeepDecompositionsStray(db, other, now);
    assert IsProtocol(Asked(db, other, now, true), true);
  }

  /** The cancel and the decomposition begin, the decomposition takes its node, and the cancel takes `n` rows. */
  function Crossing(cancel: seq<Lock>, split: seq<Lock>, n: nat): seq<Move> {
    if n == 0 then [Begin(cancel), Begin(split), Grant(1)] else Crossing(cancel, split, n - 1) + [Grant(0)]
  }

  /**
   * A call on the very node that is being decomposed, one that comes down to it from the root: the
   * decomposition holds the node and asks, at its commit, for the key share on the root; the other call holds
   * the root and every row down to the node's parent, and asks for the node.
   */
  lemma LineMeetsSplit(db: Db, op: Op, other: Op, now: int) returns (moves: seq<Move>)
    requires Inv(db) && SplitsDeep(db, op, now)
    requires Line(db.tasks[op.task].path) <= Asked(db, other, now, true)
    ensures DeadlockTogether(db, op, other, now, moves)
  {
    hide Inv, Apply, Program, Refused, Interleave, Deadlocked;
    SoundTree(db);
    SplitAsks(db, op);
    moves := Embrace(Asked(db, other, now, true), Asked(db, op, now, true), db.tasks[op.task].path);
  }

  /** Every decomposition that can deadlock does so with a cancel of its node that would commit as well. */
  lemma CancelMeetsSplit(db: Db, op: Op, now: int) returns (moves: seq<Move>)
    requires Inv(db) && SplitsDeep(db, op, now) && Apply(db, CancelOp(op.task, User), now).Ok?
    ensures DeadlockTogether(db, op, CancelOp(op.task, User), now, moves)
  {
    hide Inv, Apply, DeadlockTogether;
    StartsDown(db, CancelOp(op.task, User));
    moves := LineMeetsSplit(db, op, CancelOp(op.task, User), now);
  }

  /**
   * Every decomposition that can deadlock has a call to do so with, on the same store and committing as well:
   * a second planner of the node, which rejects it.
   */
  lemma PlanCloseMeetsSplit(db: Db, op: Op, now: int) returns (close: Op, moves: seq<Move>)
    requires Inv(db) && SplitsDeep(db, op, now)
    ensures close.PlanCloseOp? && close.task == op.task && Apply(db, close, now).Ok? && !SplitsDeep(db, close, now)
    ensures DeadlockTogether(db, op, close, now, moves)
  {
    hide Inv, Apply, DeadlockTogether;
    SplitIsOfPlannedNode(db, op, now);
    close := RejectionGoes(db, op.task, now);
    StartsDown(db, close);
    moves := LineMeetsSplit(db, op, close, now);
  }

  lemma SplitIsOfPlannedNode(db: Db, op: Op, now: int)
    requires Inv(db) && op.DecomposeOp? && Apply(db, op, now).Ok?
    ensures op.task < |db.tasks| && !db.tasks[op.task].kind.Leaf? && db.tasks[op.task].state.Decomposing?
  {
    hide Inv;
    var _, _ := DecomposeUnfolds(db, op.task, op.expected, op.key, op.tokens, op.deps, op.checked, now);
  }

  /** A node in planning can always be rejected by its planner. */
  lemma RejectionGoes(db: Db, id: TaskId, now: int) returns (op: Op)
    requires Inv(db) && id < |db.tasks| && db.tasks[id].state.Decomposing? && !db.tasks[id].kind.Leaf?
    ensures op.PlanCloseOp? && op.task == id && Apply(db, op, now).Ok?
  {
    hide Inv, RollupFrom, Transition, TreeOk;
    var key := FreshKey(db.attempts);
    op := PlanCloseOp(id, db.tasks[id].version, key, 0, PlanResult.Rejects, true);
    var a := Attempt(id, Planning, key, None, Reject, 0);
    var noted := db.(attempts := db.attempts + [a]);
    PlanAttemptKeeps(db, a);
    Transits(noted, id, Blocked, Planner, now);
    TransitionKeeps(noted, id, Blocked, Planner, now);
    var db1 := Transition(noted, id, Blocked, Planner, now).value;
    SoundTree(db1);
    ParentIsInner(db1, id);
    RollupKeeps(db1, db.tasks[id].parent, now);
  }

  /** Two programs like these embrace: one comes down to a row that the other holds, which wants the top row. */
  lemma Embrace(cancel: seq<Lock>, split: seq<Lock>, path: Path) returns (moves: seq<Move>)
    requires 2 <= |path| <= |cancel| && forall k | 0 <= k < |path| :: cancel[k] == ForUpdate(path[..k + 1])
    requires split == [ForUpdate(path), KeyShare(path[..1])]
    ensures Deadlocked(Interleave(moves), {0, 1})
    ensures forall k | 0 <= k < |moves| && moves[k].Begin? :: moves[k].program == cancel || moves[k].program == split
  {
    hide Interleave, Crossing, Deadlocked;
    moves := Crossing(cancel, split, |path| - 1);
    CrossingState(cancel, split, path, |path| - 1);
    EmbraceIsDeadlock(Interleave(moves), cancel, split, path);
    CrossingBegins(cancel, split, |path| - 1);
  }

  lemma SplitAsks(db: Db, op: Op)
    requires Inv(db) && Aims(db, op) && op.DecomposeOp?
    ensures |db.tasks[op.task].path| >= 1
    ensures Program(db, op, true) == [ForUpdate(db.tasks[op.task].path), KeyShare(db.tasks[op.task].path[..1])]
  {
    RootOfCampaign(db, op.task);
  }

  /** A cancel and a plan close that commit come down to their node from the root. */
  lemma StartsDown(db: Db, op: Op)
    requires Aims(db, op) && (op.CancelOp? || op.PlanCloseOp?)
    ensures Line(db.tasks[op.task].path) <= Program(db, op, true)
  {
    hide Line, Upward, Rows, SubtreeRows;
  }

  lemma {:induction false} CrossingBegins(cancel: seq<Lock>, split: seq<Lock>, n: nat)
    ensures forall k | 0 <= k < |Crossing(cancel, split, n)| && Crossing(cancel, split, n)[k].Begin? ::
      Crossing(cancel, split, n)[k].program == cancel || Crossing(cancel, split, n)[k].program == split
  {
    if n > 0 {
      CrossingBegins(cancel, split, n - 1);
    }
  }

  lemma {:induction false} CrossingState(cancel: seq<Lock>, split: seq<Lock>, path: Path, n: nat)
    requires |path| <= |cancel| && n < |path| && forall k | 0 <= k < |path| :: cancel[k] == ForUpdate(path[..k + 1])
    requires |split| == 2 && split[0] == ForUpdate(path)
    ensures Interleave(Crossing(cancel, split, n)) == [Caller(cancel[..n], cancel[n..]), Caller([split[0]], [split[1]])]
  {
    hide Interleave, Next;
    if n == 0 {
      FirstMoves(cancel, split);
      assert cancel[..0] == [] && cancel[0..] == cancel;
    } else {
      CrossingState(cancel, split, path, n - 1);
      Played(Crossing(cancel, split, n - 1), Grant(0));
      CrossingGrant(cancel, split, path, n - 1);
    }
  }

  /** The rows above the node are free for the cancel, one after the other. */
  lemma CrossingGrant(cancel: seq<Lock>, split: seq<Lock>, path: Path, n: nat)
    requires |path| <= |cancel| && n + 1 < |path| && cancel[n] == ForUpdate(path[..n + 1])
    requires |split| == 2 && split[0] == ForUpdate(path)
    ensures Next([Caller(cancel[..n], cancel[n..]), Caller([split[0]], [split[1]])], Grant(0))
      == [Caller(cancel[..n + 1], cancel[n + 1..]), Caller([split[0]], [split[1]])]
  {
    var s := [Caller(cancel[..n], cancel[n..]), Caller([split[0]], [split[1]])];
    var l := cancel[n];
    assert |l.row| == n + 1 && cancel[n..][0] == l;
    assert Free(s, 0, l);
    assert cancel[..n] + [l] == cancel[..n + 1] && cancel[n..][1..] == cancel[n + 1..];
  }

  lemma FirstMoves(cancel: seq<Lock>, split: seq<Lock>)
    requires |split| == 2
    ensures Interleave([Begin(cancel), Begin(split), Grant(1)]) == [Caller([], cancel), Caller([split[0]], [split[1]])]
  {
    var s := [Caller([], cancel), Caller([], split)];
    Played([], Begin(cancel));
    Played([Begin(cancel)], Begin(split));
    Played([Begin(cancel), Begin(split)], Grant(1));
    hide Interleave;
    assert [] + [Begin(cancel)] == [Begin(cancel)];
    assert [Begin(cancel)] + [Begin(split)] == [Begin(cancel), Begin(split)];
    assert [Begin(cancel), Begin(split)] + [Grant(1)] == [Begin(cancel), Begin(split), Grant(1)];
    assert [] + [Caller([], cancel)] == [Caller([], cancel)] && [Caller([], cancel)] + [Caller([], split)] == s;
    assert Free(s, 1, split[0]);
    assert [] + [split[0]] == [split[0]] && split[1..] == [split[1]];
    assert s[1 := Caller([split[0]], [split[1]])] == [Caller([], cancel), Caller([split[0]], [split[1]])];
  }

  lemma Played(moves: seq<Move>, m: Move)
    ensures Interleave(moves + [m]) == Next(Interleave(moves), m)
    ensures Interleave([]) == []
  {
    assert (moves + [m])[..|moves|] == moves;
  }

  lemma EmbraceIsDeadlock(s: seq<Tx>, cancel: seq<Lock>, split: seq<Lock>, path: Path)
    requires 2 <= |path| <= |cancel| && forall k | 0 <= k < |path| :: cancel[k] == ForUpdate(path[..k + 1])
    requires split == [ForUpdate(path), KeyShare(path[..1])]
    requires s == [Caller(cancel[..|path| - 1], cancel[|path| - 1..]), Caller([split[0]], [split[1]])]
    ensures Deadlocked(s, {0, 1})
  {
    assert path[..|path|] == path;
    assert s[0].todo[0] == ForUpdate(path) && s[0].held[0] == ForUpdate(path[..1]);
    assert Clash(s[0].todo[0], s[1].held[0]) && Clash(s[1].todo[0], s[0].held[0]);
    assert WaitsFor(s, 0, 1) && WaitsFor(s, 1, 0);
    assert HeldUp(s, {0, 1}, 0) && HeldUp(s, {0, 1}, 1);
  }

  /**
   * A reachable store in which the two calls that embrace would both commit on their own: a node below the
   * root is in planning, its planner decomposes it and a user cancels it.
   */
  lemma ForeignKeyDeadlocks() returns (db: Db, split: Op, cancel: Op, moves: seq<Move>)
    ensures Reachable(db) && Inv(db) && split.DecomposeOp? && cancel == CancelOp(split.task, User)
    ensures Apply(db, split, 0).Ok? && Apply(db, cancel, 0).Ok?
    ensures DeadlockTogether(db, split, cancel, 0, moves)
  {
    hide Inv, Reachable, Apply, DeadlockTogether;
    db := CampaignExample.PlannedOverOpenChild();
    var db2;
    split, db2 := CampaignExample.SplitGoes(db);
    cancel := CancelOp(1, User);
    CancelApplies(db);
    moves := CancelMeetsSplit(db, split, 0);
  }

  lemma CancelApplies(db: Db)
    requires OnWalk(db) && CampaignExample.Shape(db, Interior, [Decomposed, Decomposing, Ready, Ready])
    ensures Apply(db, CancelOp(1, User), 0).Ok?
  {
    hide Inv, Reachable, Cancel;
    CampaignExample.CancelGoesHere(db);
  }
}
