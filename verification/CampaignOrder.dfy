/**
 * The order in which a protocol first asks for its rows. A row comes in `(depth, path)` order after every row
 * asked for before it, except in one case: failing a leaf, or closing its review unmerged, blocks the ready
 * dependents, and a dependent may have a smaller ordinal than the leaf, which is locked already.
 */
module CampaignOrder {
  import opened Outcomes
  import opened CampaignRules
  import opened CampaignTables
  import opened CampaignProtocols
  import opened CampaignInvariants
  import opened CampaignSafety
  import opened CampaignRuns
  import opened LockSystem
  import opened CampaignLocks
  import CampaignExample

  /** `(depth, path)` order of rows. */
  predicate RowBefore(a: Path, b: Path) {
    |a| < |b| || (|a| == |b| && Before(a, b))
  }

  /** A row that is asked for the first time comes after every row asked for before it. */
  ghost predicate InRowOrder(before: seq<Lock>, l: Lock) {
    l in before || forall k | 0 <= k < |before| :: RowBefore(before[k].row, l.row)
  }

  ghost predicate Ascends(todo: seq<Lock>) {
    forall b | 0 <= b < |todo| :: InRowOrder(todo[..b], todo[b])
  }

  /** The call ends a leaf's work without success, and a ready row with a smaller ordinal depends on the leaf. */
  ghost predicate StepsBack(db: Db, op: Op) {
    && Aims(db, op) && (op.FailOp? || (op.ResolveReviewOp? && !op.merged))
    && exists c: TaskId | c < |db.tasks| ::
      db.tasks[c].state.Ready? && op.task in db.tasks[c].dependsOn && db.tasks[c].Ordinal() < db.tasks[op.task].Ordinal()
  }

  /** A call asks for new rows in `(depth, path)` order unless it commits and steps back, and only then not. */
  lemma AscendsExactly(db: Db, op: Op, now: int)
    requires Inv(db)
    ensures Ascends(Asked(db, op, now, false)) <==> !(Apply(db, op, now).Ok? && StepsBack(db, op))
  {
    hide Inv, Apply, Ascends, StepsBack, Program, Refused;
    SoundTree(db);
    ProgramAscendsExactly(db, op);
    if Apply(db, op, now).Err? {
      RefusedAscends(db, op);
    }
  }

  lemma ProgramAscendsExactly(db: Db, op: Op)
    requires Inv(db)
    ensures Ascends(Program(db, op, false)) <==> !StepsBack(db, op)
  {
    if Aims(db, op) {
      assert NodeOk(db, op.task);
      if op.PlanStartOp? || op.PlanCloseOp? || op.RetryOp? || (op.ResolveReviewOp? && op.merged) {
        RisingAscends(db, op);
      } else if op.FailOp? || op.ResolveReviewOp? {
        FailureAscendsExactly(db, op);
      } else if op.CancelOp? || op.ReplanOp? {
        SubtreeAscends(db, op);
      } else if op.ApproveChildrenOp? {
        ApprovalsAscend(db, op.task);
      } else {
        OneRowAscends(db, op);
      }
    }
  }

  /** A call that is refused has not come to a sibling, so it asks in order. */
  lemma RefusedAscends(db: Db, op: Op)
    requires Inv(db)
    ensures Ascends(Refused(db, op))
  {
    hide Inv, Program, Line, Upward, Rows, SubtreeRows, Dependents;
    if Aims(db, op) && (op.FailOp? || op.ResolveReviewOp?) {
      LineAscends(db.tasks[op.task].path);
    } else {
      ProgramAscendsExactly(db, op);
      RefusedBegins(db, op);
      var begun, todo := Refused(db, op), Program(db, op, false);
      assert todo == begun + todo[|begun|..];
      AscendsThen(begun, todo[|begun|..]);
    }
  }

  lemma OneRowAscends(db: Db, op: Op)
    requires Aims(db, op) && |Program(db, op, false)| == 1
    ensures Ascends(Program(db, op, false))
  {
  }

  // ---- pieces of a program ----

  /** Appending requests that are in order keeps the order, and a program in order has its beginning in order. */
  lemma AscendsThen(a: seq<Lock>, b: seq<Lock>)
    ensures Ascends(a + b) <==> Ascends(a) && forall k | 0 <= k < |b| :: InRowOrder(a + b[..k], b[k])
  {
    var whole := a + b;
    forall k | 0 <= k < |a|
      ensures whole[..k] == a[..k] && whole[k] == a[k]
    {
    }
    forall k | 0 <= k < |b|
      ensures whole[..|a| + k] == a + b[..k] && whole[|a| + k] == b[k]
    {
    }
    if Ascends(whole) {
      forall k | 0 <= k < |a|
        ensures InRowOrder(a[..k], a[k])
      {
        assert InRowOrder(whole[..k], whole[k]);
      }
      forall k | 0 <= k < |b|
        ensures InRowOrder(a + b[..k], b[k])
      {
        assert InRowOrder(whole[..|a| + k], whole[|a| + k]);
      }
    }
    if Ascends(a) && forall k | 0 <= k < |b| :: InRowOrder(a + b[..k], b[k]) {
      forall k | 0 <= k < |whole|
        ensures InRowOrder(whole[..k], whole[k])
      {
        if k >= |a| {
          assert InRowOrder(a + b[..k - |a|], b[k - |a|]);
        }
      }
    }
  }

  lemma LineAscends(path: Path)
    ensures Ascends(Line(path))
  {
  }

  /** The way back up asks for nothing new. */
  lemma UpwardAsksNothingNew(path: Path, before: seq<Lock>)
    requires Line(path) <= before
    ensures Ascends(before + Upward(path)) <==> Ascends(before)
  {
    var up := Upward(path);
    forall k | 0 <= k < |up|
      ensures InRowOrder(before + up[..k], up[k])
    {
      LineHolds(path, |up[k].row|);
      assert up[k] in before;
    }
    AscendsThen(before, up);
  }

  lemma RisingAscends(db: Db, op: Op)
    requires Aims(db, op)
    requires op.PlanStartOp? || op.PlanCloseOp? || op.RetryOp? || (op.ResolveReviewOp? && op.merged)
    ensures Ascends(Program(db, op, false))
  {
    var path := db.tasks[op.task].path;
    LineAscends(path);
    UpwardAsksNothingNew(path, Line(path));
    assert Line(path) + [] == Line(path);
  }

  // ---- subtrees ----

  lemma {:induction false} BeforeOrSame(a: seq<nat>, b: seq<nat>)
    requires !Before(b, a) && a != b
    ensures Before(a, b)
  {
    if |a| > 0 && |b| > 0 && a[0] == b[0] {
      assert a == [a[0]] + a[1..] && b == [b[0]] + b[1..];
      BeforeOrSame(a[1..], b[1..]);
    }
  }

  /** The rows of a subtree, in the order of its statement. */
  lemma SubtreeInOrder(db: Db, id: TaskId, a: nat, b: nat)
    requires id < |db.tasks| && a < b < |SubtreeRows(db, id)|
    requires db.tasks[SubtreeRows(db, id)[a]].path != db.tasks[SubtreeRows(db, id)[b]].path
    ensures RowBefore(db.tasks[SubtreeRows(db, id)[a]].path, db.tasks[SubtreeRows(db, id)[b]].path)
  {
    var key := DepthPathKey(db.tasks);
    var ids := SubtreeRows(db, id);
    SortIsInOrder(key, Select((i: TaskId) => i < |db.tasks| && InSubtree(db, id, i), |db.tasks|));
    assert !Before(key(ids[b]), key(ids[a]));
    var x, y := db.tasks[ids[a]].path, db.tasks[ids[b]].path;
    assert key(ids[a]) == [|x|] + x && key(ids[b]) == [|y|] + y;
    assert ([|x|] + x)[1..] == x && ([|y|] + y)[1..] == y;
    if |x| == |y| {
      BeforeOrSame(x, y);
    }
  }

  lemma SubtreeRowInOrder(db: Db, id: TaskId, k: nat)
    requires TreeOk(db) && id < |db.tasks| && k < |SubtreeRows(db, id)|
    ensures var path := db.tasks[id].path; var rows := Rows(db, SubtreeRows(db, id));
      InRowOrder(Line(path) + rows[..k], rows[k])
  {
    hide TreeOk, Rows, Line, Subtree;
    var path := db.tasks[id].path;
    var ids := SubtreeRows(db, id);
    var row := db.tasks[ids[k]].path;
    SubtreeMembers(db, id);
    assert ids[k] in Subtree(db, id);
    assert path <= row;
    if |row| == |path| {
      assert row == path;
      TopIsHeld(db, id);
      assert Rows(db, ids)[k] in Line(path);
    } else {
      LowerRowInOrder(db, id, k);
    }
  }

  lemma LowerRowInOrder(db: Db, id: TaskId, k: nat)
    requires id < |db.tasks| && k < |SubtreeRows(db, id)|
    requires |db.tasks[SubtreeRows(db, id)[k]].path| > |db.tasks[id].path|
    ensures var path := db.tasks[id].path; var rows := Rows(db, SubtreeRows(db, id));
      InRowOrder(Line(path) + rows[..k], rows[k])
  {
    hide SubtreeRows, Rows, Line, RowBefore;
    var path := db.tasks[id].path;
    var ids := SubtreeRows(db, id);
    var rows := Rows(db, ids);
    if rows[k] !in rows[..k] {
      forall j | 0 <= j < k
        ensures RowBefore(rows[j].row, rows[k].row)
      {
        assert rows[j] in rows[..k];
        SubtreeInOrder(db, id, j, k);
      }
      forall j | 0 <= j < |path|
        ensures RowBefore(Line(path)[j].row, rows[k].row)
      {
        ShorterIsBefore(path[..j + 1], rows[k].row);
      }
    }
  }

  lemma ShorterIsBefore(a: Path, b: Path)
    requires |a| < |b|
    ensures RowBefore(a, b)
  {
  }

  lemma SubtreeAscends(db: Db, op: Op)
    requires Inv(db) && Aims(db, op) && (op.CancelOp? || op.ReplanOp?)
    ensures Ascends(Program(db, op, false))
  {
    var path := db.tasks[op.task].path;
    var rows := Rows(db, SubtreeRows(db, op.task));
    LineAscends(path);
    forall k | 0 <= k < |rows|
      ensures InRowOrder(Line(path) + rows[..k], rows[k])
    {
      SubtreeRowInOrder(db, op.task, k);
    }
    AscendsThen(Line(path), rows);
    UpwardAsksNothingNew(path, Line(path) + rows);
  }

  // ---- children and siblings ----

  ghost predicate ByOrdinal(db: Db, ids: seq<TaskId>) {
    && (forall k | 0 <= k < |ids| :: ids[k] < |db.tasks|)
    && forall a, b | 0 <= a < b < |ids| :: db.tasks[ids[a]].Ordinal() < db.tasks[ids[b]].Ordinal()
  }

  lemma {:induction false} KeepStaysByOrdinal(db: Db, keep: TaskId -> bool, ids: seq<TaskId>)
    requires ByOrdinal(db, ids)
    ensures ByOrdinal(db, Keep(keep, ids))
  {
    hide ByOrdinal;
    if |ids| == 0 {
      assert Keep(keep, ids) == ids;
    } else {
      var rest := Keep(keep, ids[1..]);
      HeadIsLeast(db, ids);
      KeepStaysByOrdinal(db, keep, ids[1..]);
      assert forall c | c in rest :: c in ids[1..];
      LeastInFront(db, ids[0], rest);
      assert [] + rest == rest;
    }
  }

  lemma HeadIsLeast(db: Db, ids: seq<TaskId>)
    requires ByOrdinal(db, ids) && |ids| > 0
    ensures ids[0] < |db.tasks| && ByOrdinal(db, ids[1..])
    ensures forall c | c in ids[1..] :: c < |db.tasks| && db.tasks[ids[0]].Ordinal() < db.tasks[c].Ordinal()
  {
  }

  lemma LeastInFront(db: Db, first: TaskId, rest: seq<TaskId>)
    requires ByOrdinal(db, rest) && first < |db.tasks|
    requires forall c | c in rest :: c < |db.tasks| && db.tasks[first].Ordinal() < db.tasks[c].Ordinal()
    ensures ByOrdinal(db, [first] + rest)
  {
    forall b | 0 <= b < |rest|
      ensures db.tasks[first].Ordinal() < db.tasks[rest[b]].Ordinal()
    {
      assert rest[b] in rest;
    }
  }

  lemma KidsByOrdinal(db: Db, p: TaskId)
    requires Inv(db) && p < |db.tasks|
    ensures ByOrdinal(db, Kids(db, p))
  {
    assert NodeOk(db, p);
  }

  /** Two rows under one parent are ordered as their ordinals are. */
  lemma SiblingsCompare(db: Db, a: TaskId, b: TaskId)
    requires Inv(db) && a < |db.tasks| && b < |db.tasks|
    requires db.tasks[a].parent.Some? && db.tasks[a].parent == db.tasks[b].parent
    ensures RowBefore(db.tasks[a].path, db.tasks[b].path) <==> db.tasks[a].Ordinal() < db.tasks[b].Ordinal()
    ensures |db.tasks[a].path| == |db.tasks[b].path|
    ensures db.tasks[a].path == db.tasks[b].path <==> db.tasks[a].Ordinal() == db.tasks[b].Ordinal()
  {
    ParentPath(db, a);
    ParentPath(db, b);
    var stem := db.tasks[db.tasks[a].parent.value].path;
    assert db.tasks[a].path == stem + [db.tasks[a].Ordinal()] && db.tasks[b].path == stem + [db.tasks[b].Ordinal()];
    StemCompare(stem, db.tasks[a].Ordinal(), db.tasks[b].Ordinal());
  }

  lemma {:induction false} StemCompare(stem: Path, x: nat, y: nat)
    ensures Before(stem + [x], stem + [y]) <==> x < y
  {
    if |stem| > 0 {
      assert (stem + [x])[1..] == stem[1..] + [x] && (stem + [y])[1..] == stem[1..] + [y];
      StemCompare(stem[1..], x, y);
    }
  }

  lemma OneAscends(l: Lock)
    ensures Ascends([l])
  {
  }

  lemma ChildInOrder(db: Db, p: TaskId, ids: seq<TaskId>, k: nat)
    requires Inv(db) && p < |db.tasks| && ByOrdinal(db, ids) && k < |ids|
    requires forall i | 0 <= i < |ids| :: ids[i] < |db.tasks| && db.tasks[ids[i]].parent == Some(p)
    ensures InRowOrder([ForUpdate(db.tasks[p].path)] + Rows(db, ids)[..k], Rows(db, ids)[k])
  {
    hide Inv, TreeOk, Rows;
    SoundTree(db);
    ParentPath(db, ids[k]);
    var before := [ForUpdate(db.tasks[p].path)] + Rows(db, ids)[..k];
    forall j | 0 <= j < |before|
      ensures RowBefore(before[j].row, Rows(db, ids)[k].row)
    {
      if j > 0 {
        SiblingsCompare(db, ids[j - 1], ids[k]);
      }
    }
  }

  lemma ApprovalsAscend(db: Db, p: TaskId)
    requires Inv(db) && p < |db.tasks|
    ensures Ascends([ForUpdate(db.tasks[p].path)] + Rows(db, Waiting(db, p)))
  {
    hide Inv, Rows, Kids, InRowOrder, Ascends, ByOrdinal;
    var first := [ForUpdate(db.tasks[p].path)];
    var ids := Waiting(db, p);
    OneAscends(first[0]);
    var rows := Rows(db, ids);
    KidsByOrdinal(db, p);
    KeepStaysByOrdinal(db, (c: TaskId) => c < |db.tasks| && db.tasks[c].state.AwaitingApproval?, Kids(db, p));
    forall k | 0 <= k < |rows|
      ensures InRowOrder(first + rows[..k], rows[k])
    {
      ChildInOrder(db, p, ids, k);
    }
    AscendsThen(first, rows);
  }

  /** A dependent comes after the leaf's line and the dependents before it exactly when its ordinal is larger. */
  lemma DependentInOrder(db: Db, id: TaskId, k: nat)
    requires Inv(db) && id < |db.tasks| && k < |Dependents(db, id)| && ByOrdinal(db, Dependents(db, id))
    ensures var path := db.tasks[id].path; var rows := Rows(db, Dependents(db, id));
      InRowOrder(Line(path) + rows[..k], rows[k]) <==> !(db.tasks[Dependents(db, id)[k]].Ordinal() < db.tasks[id].Ordinal())
  {
    var path := db.tasks[id].path;
    var ids := Dependents(db, id);
    SiblingsCompare(db, id, ids[k]);
    assert NodeOk(db, id);
    hide Inv, Dependents, Rows, Line, RowBefore;
    var rows := Rows(db, ids);
    assert path[..|path|] == path && Line(path)[|path| - 1] == ForUpdate(path);
    if db.tasks[ids[k]].Ordinal() == db.tasks[id].Ordinal() {
      assert rows[k] in Line(path);
    } else {
      NewDependent(db, id, ids, k);
      assert (Line(path) + rows[..k])[|path| - 1] == ForUpdate(path);
    }
  }

  /** A dependent is new, and comes after everything asked for before it but, perhaps, the leaf. */
  lemma NewDependent(db: Db, id: TaskId, ids: seq<TaskId>, k: nat)
    requires Inv(db) && id < |db.tasks| && k < |ids| && ByOrdinal(db, ids)
    requires db.tasks[id].parent.Some? && forall j | 0 <= j < |ids| :: db.tasks[ids[j]].parent == db.tasks[id].parent
    requires db.tasks[ids[k]].Ordinal() != db.tasks[id].Ordinal()
    ensures var path := db.tasks[id].path; var rows := Rows(db, ids); var before := Line(path) + rows[..k];
      && rows[k] !in before
      && forall j | 0 <= j < |before| && j != |path| - 1 :: RowBefore(before[j].row, rows[k].row)
  {
    hide Inv, Rows, Line;
    var path := db.tasks[id].path;
    var rows := Rows(db, ids);
    var before := Line(path) + rows[..k];
    SiblingsCompare(db, id, ids[k]);
    assert path[..|path|] == path;
    forall j | 0 <= j < |before|
      ensures before[j] != rows[k]
      ensures j != |path| - 1 ==> RowBefore(before[j].row, rows[k].row)
    {
      if j >= |path| {
        SiblingsCompare(db, ids[j - |path|], ids[k]);
      }
    }
  }

  lemma DependentsAre(db: Db, id: TaskId)
    requires Inv(db) && id < |db.tasks|
    ensures ByOrdinal(db, Dependents(db, id))
    ensures forall c: TaskId :: c in Dependents(db, id) <==> c < |db.tasks| && db.tasks[c].state.Ready? && id in db.tasks[c].dependsOn
  {
    var keep := (c: TaskId) => c < |db.tasks| && db.tasks[c].state.Ready? && id in db.tasks[c].dependsOn;
    var parent := db.tasks[id].parent;
    if parent.Some? {
      assert NodeOk(db, id);
      KidsByOrdinal(db, parent.value);
      KeepStaysByOrdinal(db, keep, Kids(db, parent.value));
      KeepIs(keep, Kids(db, parent.value));
    }
    forall c: TaskId | c < |db.tasks| && id in db.tasks[c].dependsOn
      ensures parent.Some? && c in Kids(db, parent.value)
    {
      assert DepsAmongSiblings(db.tasks, db.tasks[c]);
      KidIsListed(db.tasks, c, |db.tasks|);
    }
  }

  lemma {:induction false} KeepIs(keep: TaskId -> bool, ids: seq<TaskId>)
    ensures forall c: TaskId :: c in Keep(keep, ids) <==> c in ids && keep(c)
  {
    if |ids| > 0 {
      KeepIs(keep, ids[1..]);
      assert forall c :: c in ids <==> c == ids[0] || c in ids[1..];
    }
  }

  lemma FailureAscendsExactly(db: Db, op: Op)
    requires Inv(db) && Aims(db, op) && (op.FailOp? || (op.ResolveReviewOp? && !op.merged))
    ensures Ascends(Program(db, op, false)) <==> !StepsBack(db, op)
  {
    var id := op.task;
    var path := db.tasks[id].path;
    var ids := Dependents(db, id);
    var rows := Rows(db, ids);
    DependentsAre(db, id);
    LineAscends(path);
    FailureProgram(db, op);
    hide Inv, Dependents, Rows, Line, Upward, InRowOrder, Ascends, Program, StepsBack;
    AscendsThen(Line(path), rows);
    UpwardAsksNothingNew(path, Line(path) + rows);
    forall k | 0 <= k < |rows|
      ensures InRowOrder(Line(path) + rows[..k], rows[k]) <==> !(db.tasks[ids[k]].Ordinal() < db.tasks[id].Ordinal())
    {
      DependentInOrder(db, id, k);
    }
    BacktrackIsListed(db, op, ids);
  }

  lemma FailureProgram(db: Db, op: Op)
    requires Aims(db, op) && (op.FailOp? || (op.ResolveReviewOp? && !op.merged))
    ensures var path := db.tasks[op.task].path;
      Program(db, op, false) == Line(path) + Rows(db, Dependents(db, op.task)) + Upward(path)
  {
  }

  lemma BacktrackIsListed(db: Db, op: Op, ids: seq<TaskId>)
    requires Aims(db, op) && (op.FailOp? || (op.ResolveReviewOp? && !op.merged))
    requires forall c: TaskId :: c in ids <==> c < |db.tasks| && db.tasks[c].state.Ready? && op.task in db.tasks[c].dependsOn
    requires forall k | 0 <= k < |ids| :: ids[k] < |db.tasks|
    ensures StepsBack(db, op) <==> exists k | 0 <= k < |ids| :: db.tasks[ids[k]].Ordinal() < db.tasks[op.task].Ordinal()
  {
    if StepsBack(db, op) {
      var c: TaskId :| c < |db.tasks|
        && db.tasks[c].state.Ready? && op.task in db.tasks[c].dependsOn && db.tasks[c].Ordinal() < db.tasks[op.task].Ordinal();
      assert c in ids;
    }
  }

  /** A reachable store in which failing a leaf commits and locks a dependent with a smaller ordinal after it. */
  lemma FailureStepsBack() returns (db: Db, op: Op)
    ensures Reachable(db) && Inv(db) && op.FailOp? && Apply(db, op, 0).Ok?
    ensures StepsBack(db, op) && !Ascends(Asked(db, op, 0, false))
  {
    hide Inv, Reachable, AllForUpdate;
    db, op := CampaignExample.FailureStrandsDependent();
    CampaignExample.Depths(db, Leaf, [Decomposed, Ready, Running, Ready]);
    assert db.tasks[1].state.Ready? && op.task in db.tasks[1].dependsOn && db.tasks[1].Ordinal() < db.tasks[2].Ordinal();
    AscendsExactly(db, op, 0);
  }
}
