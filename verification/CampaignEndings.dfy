/**
 * What each committed call leaves in the three tables: its new rows, events and attempts are written out
 * here, so that a reader needs none of the statements that the protocols are built from.
 *
 * A call that ends or reopens work is followed by the rollup pass. The call's own rows are described first,
 * and `PassedAbove` describes the line of ancestors above them; no other row moves.
 */
module CampaignEndings {
  import opened Outcomes
  import opened Collections
  import opened CampaignRules
  import opened CampaignTables
  import opened CampaignProtocols
  import opened CampaignInvariants
  import opened CampaignSafety
  import opened CampaignEffects
  import opened CampaignRuns
  import opened CampaignRollup
  import opened CampaignPass

  // ---- one row ----

  /** The event of a move of row `t` to `to`. */
  function MoveOf(id: TaskId, t: Task, to: TaskState, actor: ActorClass): Event {
    Event(id, Some(t.state), to, actor, t.version + 1, Plain)
  }

  /** Only row `id` has changed. */
  ghost predicate OnlyRow(db: Db, db': Db, id: TaskId) {
    && id < |db.tasks| == |db'.tasks|
    && forall i: TaskId | i < |db.tasks| && i != id :: db'.tasks[i] == db.tasks[i]
  }

  /** One row moves, with its event, and nothing follows. */
  ghost predicate RowMoves(db: Db, db': Db, id: TaskId, to: TaskState, actor: ActorClass, now: int) {
    && OnlyRow(db, db', id)
    && Becomes(db.tasks[id], db'.tasks[id], to, now)
    && db'.events == db.events + [MoveOf(id, db.tasks[id], to, actor)]
  }

  /** Outside `own`, only the line above row `id` may have moved, and as the pass moves it. */
  ghost predicate PassedAbove(db: Db, db': Db, id: TaskId, own: set<TaskId>, now: int)
    requires Rooted(db) && id < |db.tasks|
  {
    && |db'.tasks| == |db.tasks|
    && var up := db.tasks[id].parent;
      forall q: TaskId | q < |db.tasks| && q !in own ::
        if OnChain(db, up, q) && (up == Some(q) || MovedBelow(db, db', up, q))
        then RolledUp(db.tasks[q].state, db', q) && Settles(db.tasks[q], db'.tasks[q], now)
        else db'.tasks[q] == db.tasks[q]
  }

  /** The call's own events, and then those of the pass. */
  ghost predicate EventsThenPass(before: seq<Event>, own: seq<Event>, after: seq<Event>) {
    && before + own <= after
    && forall k | |before| + |own| <= k < |after| :: after[k].actor.RollupPass? && after[k].note.Plain?
  }

  /** One row moves, with its event, and the pass follows. */
  ghost predicate MovesThenPass(db: Db, db': Db, id: TaskId, to: TaskState, actor: ActorClass, now: int)
    requires Rooted(db)
  {
    && id < |db.tasks| == |db'.tasks|
    && Becomes(db.tasks[id], db'.tasks[id], to, now)
    && PassedAbove(db, db', id, {id}, now)
    && EventsThenPass(db.events, [MoveOf(id, db.tasks[id], to, actor)], db'.events)
  }

  lemma TransitionEnds(db: Db, id: TaskId, to: TaskState, actor: ActorClass, now: int)
    requires Transition(db, id, to, actor, now).Ok?
    ensures RowMoves(db, Transition(db, id, to, actor, now).value, id, to, actor, now)
    ensures Transition(db, id, to, actor, now).value.attempts == db.attempts
    ensures id < |Transition(db, id, to, actor, now).value.tasks| == |db.tasks|
  {
    hide Allowed;
  }

  /** No row of the call's own is on the line above it, so the pass finds the line as it was. */
  lemma PassFromWritten(db: Db, mid: Db, db': Db, id: TaskId, own: set<TaskId>, now: int)
    requires Rooted(db) && Rooted(mid) && id < |db.tasks| == |mid.tasks|
    requires forall i: TaskId | i < |db.tasks| :: mid.tasks[i].parent == db.tasks[i].parent
    requires forall i: TaskId | i < |db.tasks| && i !in own :: mid.tasks[i] == db.tasks[i]
    requires forall i | i in own :: !OnChain(db, db.tasks[id].parent, i)
    requires PassedOver(mid, db', db.tasks[id].parent, now)
    ensures PassedAbove(db, db', id, own, now)
    ensures forall i: TaskId | i < |db.tasks| && i in own :: db'.tasks[i] == mid.tasks[i]
  {
    hide OnChain, RolledUp, Settles;
    var up := db.tasks[id].parent;
    forall i: TaskId | i < |db.tasks|
      ensures OnChain(mid, up, i) == OnChain(db, up, i)
    {
      OnChainFrame(db, mid, up, i);
    }
    forall q: TaskId | q < |db.tasks| && q !in own
      ensures MovedBelow(mid, db', up, q) <==> MovedBelow(db, db', up, q)
    {
    }
  }

  lemma NotAboveItself(db: Db, id: TaskId)
    requires Rooted(db) && id < |db.tasks|
    ensures !OnChain(db, db.tasks[id].parent, id)
  {
    if OnChain(db, db.tasks[id].parent, id) {
      ChainIsBelow(db, db.tasks[id].parent, id);
    }
  }

  lemma PassEvents(before: seq<Event>, own: seq<Event>, mid: Db, db': Db, p: Option<TaskId>, now: int)
    requires Rooted(mid) && mid.events == before + own && PassedOver(mid, db', p, now)
    ensures EventsThenPass(before, own, db'.events) && db'.attempts == mid.attempts
  {
  }

  /** The node, whose counter alone may already have changed, has moved: the tree is as it was. */
  lemma MovedRowStays(db: Db, db1: Db, db2: Db, id: TaskId, to: TaskState, actor: ActorClass, now: int)
    requires OnlyRow(db, db1, id) && db1.tasks[id] == db.tasks[id].(attempts := db1.tasks[id].attempts)
    requires RowMoves(db1, db2, id, to, actor, now)
    ensures |db2.tasks| == |db.tasks| && Becomes(db1.tasks[id], db2.tasks[id], to, now)
    ensures forall i: TaskId | i < |db.tasks| :: db2.tasks[i].parent == db.tasks[i].parent
    ensures forall i: TaskId | i < |db.tasks| && i != id :: db2.tasks[i] == db.tasks[i]
    ensures db2.events == db1.events + [MoveOf(id, db.tasks[id], to, actor)]
  {
  }

  /** A move and then the pass from the parent. */
  lemma MoveAndPassEnds(db: Db, db1: Db, id: TaskId, to: TaskState, actor: ActorClass, now: int)
    requires Rooted(db) && id < |db.tasks| && OnlyRow(db, db1, id) && db1.events == db.events
    requires db1.tasks[id] == db.tasks[id].(attempts := db1.tasks[id].attempts)
    requires Transition(db1, id, to, actor, now).Ok? && Rooted(Transition(db1, id, to, actor, now).value)
    requires db.tasks[id].parent.Some? ==> db.tasks[id].parent.value < |Transition(db1, id, to, actor, now).value.tasks|
    requires RollupFrom(Transition(db1, id, to, actor, now).value, db.tasks[id].parent, now).Ok?
    ensures var db' := RollupFrom(Transition(db1, id, to, actor, now).value, db.tasks[id].parent, now).value;
      && |db'.tasks| == |db.tasks| && Becomes(db1.tasks[id], db'.tasks[id], to, now)
      && PassedAbove(db, db', id, {id}, now)
      && EventsThenPass(db.events, [MoveOf(id, db.tasks[id], to, actor)], db'.events)
      && db'.attempts == db1.attempts
  {
    hide Rooted, OnlyRow, RowMoves, Transition, RollupFrom, OnChain, PassedAbove, PassedOver, RolledUp, Becomes, EventsThenPass, MoveOf;
    var db2 := Transition(db1, id, to, actor, now).value;
    var up := db.tasks[id].parent;
    TransitionEnds(db1, id, to, actor, now);
    MovedRowStays(db, db1, db2, id, to, actor, now);
    PassEnds(db2, up, now);
    NotAboveItself(db, id);
    var db' := RollupFrom(db2, up, now).value;
    PassFromWritten(db, db2, db', id, {id}, now);
    PassEvents(db.events, [MoveOf(id, db.tasks[id], to, actor)], db2, db', up, now);
  }

  // ---- create ----

  ghost predicate Created(db: Db, db': Db, draft: bool, policy: Option<Policy>, now: int) {
    var n := |db.tasks|;
    var state := if draft then Draft else Ready;
    var limits := if policy.Some? then policy.value else Policy([1], 6, 8, 200, 3, 400_000);
    db' == Db(db.tasks + [Task(n, None, [n], Objective, state, 1, 0, [], Some(limits), None, None, now, None)],
              db.events + [Event(n, None, state, User, 1, Plain)],
              db.attempts)
  }

  lemma CreateEnds(db: Db, actor: ActorClass, draft: bool, policy: Option<Policy>, checked: bool, now: int)
    requires Create(db, actor, draft, policy, checked, now).Ok?
    ensures Created(db, Create(db, actor, draft, policy, checked, now).value, draft, policy, now)
  {
  }

  // ---- plan ----

  /** The policy that the campaign's root row carries; a row without one has the defaults. */
  function LimitsOf(db: Db, campaign: TaskId): Policy {
    if campaign < |db.tasks| && db.tasks[campaign].policy.Some? then db.tasks[campaign].policy.value
    else Policy([1], 6, 8, 200, 3, 400_000)
  }

  predicate PlansSpent(db: Db, id: TaskId)
    requires id < |db.tasks|
  {
    var t := db.tasks[id];
    var limits := LimitsOf(db, t.campaign);
    t.attempts >= limits.maxPlanAttempts || PlanTokens(db, t.campaign, |db.attempts|) >= limits.maxPlanTokens
  }

  /** Planned, unless the campaign has no attempt or no token left: then blocked. */
  ghost predicate PlanStarted(db: Db, db': Db, id: TaskId, now: int)
    requires Rooted(db)
  {
    && id < |db.tasks| && db'.attempts == db.attempts
    && if PlansSpent(db, id) then MovesThenPass(db, db', id, Blocked, Planner, now)
       else RowMoves(db, db', id, Decomposing, Planner, now)
  }

  lemma PlanStartEnds(db: Db, id: TaskId, now: int)
    requires Rooted(db) && PlanStart(db, id, now).Ok?
    ensures PlanStarted(db, PlanStart(db, id, now).value, id, now)
  {
    hide Transition, RollupFrom, RowMoves;
    if PlansSpent(db, id) {
      TransitionEnds(db, id, Blocked, Planner, now);
      MoveAndPassEnds(db, db, id, Blocked, Planner, now);
    } else {
      TransitionEnds(db, id, Decomposing, Planner, now);
    }
  }

  ghost function ChildRows(db: Db, p: TaskId): set<TaskId> {
    set c: TaskId | c < |db.tasks| && db.tasks[c].parent == Some(p)
  }

  /** The batch rows that `deps` names, the first batch row being `base`. */
  ghost predicate NamesBatchRows(ids: seq<TaskId>, deps: seq<nat>, base: TaskId) {
    |ids| == |deps| && forall j | 0 <= j < |deps| :: ids[j] == base + deps[j] - 1
  }

  /** A child of `parent`, the `ordinal`th, that depends on the batch rows that `deps` names. */
  ghost predicate IsNewChild(t: Task, parent: Task, id: TaskId, ordinal: nat, state: TaskState, deps: seq<nat>, base: TaskId, now: int) {
    && t == Task(parent.campaign, Some(id), parent.path + [ordinal], Interior, state, 1, 0, t.dependsOn, None, None, None, now, None)
    && NamesBatchRows(t.dependsOn, deps, base)
  }

  /** The creation events of `count` new rows from row `base` on. */
  function Births(base: TaskId, count: nat, state: TaskState): seq<Event> {
    seq(count, k requires 0 <= k < count => Event(base + k, None, state, Planner, 1, Plain))
  }

  /**
   * The node is decomposed over new children, numbered on from the old ones. They wait for a user when the
   * policy gates their depth, which is the length of the node's path.
   */
  ghost predicate SplitInto(db: Db, db': Db, id: TaskId, key: IdemKey, tokens: nat, deps: seq<seq<nat>>, now: int) {
    var n := |db.tasks|;
    && id < n && |db'.tasks| == n + |deps|
    && (var t := db.tasks[id];
        var state := if |t.path| in LimitsOf(db, t.campaign).approveLevels then AwaitingApproval else Ready;
        && Becomes(t, db'.tasks[id], Decomposed, now)
        && (forall i: TaskId | i < n && i != id :: db'.tasks[i] == db.tasks[i])
        && (forall k: nat | k < |deps| ::
              IsNewChild(db'.tasks[n + k], t, id, |ChildRows(db, id)| + k + 1, state, deps[k], n, now))
        && db'.events == db.events + Births(n, |deps|, state) + [MoveOf(id, t, Decomposed, Planner)])
    && db'.attempts == db.attempts + [Attempt(id, Planning, key, None, Split, tokens)]
  }

  /** The node is a leaf, and waits for a user when the policy gates its depth. */
  ghost predicate MarkedLeaf(db: Db, db': Db, id: TaskId, key: IdemKey, tokens: nat, now: int) {
    && OnlyRow(db, db', id)
    && (var t := db.tasks[id];
        var state := if |t.path| - 1 in LimitsOf(db, t.campaign).approveLevels then AwaitingApproval else Ready;
        && Becomes(t.(kind := Leaf), db'.tasks[id], state, now)
        && db'.events == db.events + [MoveOf(id, t, state, Planner)])
    && db'.attempts == db.attempts + [Attempt(id, Planning, key, None, Execute, tokens)]
  }

  lemma MarkLeafEnds(db: Db, id: TaskId, expected: nat, key: IdemKey, tokens: nat, checked: bool, now: int)
    requires MarkLeaf(db, id, expected, key, tokens, checked, now).Ok?
    ensures MarkedLeaf(db, MarkLeaf(db, id, expected, key, tokens, checked, now).value, id, key, tokens, now)
  {
    hide Allowed, Kids, IdemExists;
  }

  /**
   * A plan that ends without children: a question waits for a user, a rejection or a finding blocks the node,
   * and an error counts one attempt and sends the node back to be planned until the attempts are used up.
   */
  ghost predicate PlanClosed(db: Db, db': Db, id: TaskId, key: IdemKey, tokens: nat, result: PlanResult, now: int)
    requires Rooted(db)
  {
    && id < |db.tasks| == |db'.tasks|
    && var t := db.tasks[id];
      var counted := if result.Errs? then t.attempts + 1 else t.attempts;
      var to := if result.AsksForInfo? then AwaitingApproval
                else if result.Errs? && counted < LimitsOf(db, t.campaign).maxPlanAttempts then Ready
                else Blocked;
      && Becomes(t.(attempts := counted), db'.tasks[id], to, now)
      && (if to.Blocked?
          then PassedAbove(db, db', id, {id}, now) && EventsThenPass(db.events, [MoveOf(id, t, to, Planner)], db'.events)
          else OnlyRow(db, db', id) && db'.events == db.events + [MoveOf(id, t, to, Planner)])
      && var outcome := match result case AsksForInfo => NeedsInfo case Rejects => Reject case _ => Erred;
        db'.attempts == db.attempts + [Attempt(id, Planning, key, None, outcome, tokens)]
  }

  lemma PlanCloseEnds(db: Db, id: TaskId, expected: nat, key: IdemKey, tokens: nat, result: PlanResult, checked: bool, now: int)
    requires Rooted(db) && PlanClose(db, id, expected, key, tokens, result, checked, now).Ok?
    ensures PlanClosed(db, PlanClose(db, id, expected, key, tokens, result, checked, now).value, id, key, tokens, result, now)
  {
    hide PlanClose, Transition, RollupFrom, PassedAbove, OnChain;
    var db1 := PlanCloseUnfolds(db, id, expected, key, tokens, result, checked, now);
    var t := db.tasks[id];
    if result.AsksForInfo? {
      TransitionEnds(db1, id, AwaitingApproval, Planner, now);
    } else if result.Errs? {
      var db2 := SetAttempts(db1, id, t.attempts + 1);
      if t.attempts + 1 >= LimitsOf(db, t.campaign).maxPlanAttempts {
        TransitionEnds(db2, id, Blocked, Planner, now);
        MoveAndPassEnds(db, db2, id, Blocked, Planner, now);
      } else {
        TransitionEnds(db2, id, Ready, Planner, now);
      }
    } else {
      TransitionEnds(db1, id, Blocked, Planner, now);
      MoveAndPassEnds(db, db1, id, Blocked, Planner, now);
    }
  }

  /** The gate, read off the campaign's policy, decides how the children start. */
  lemma SplitUnfolds(db: Db, id: TaskId, expected: nat, key: IdemKey, tokens: nat, deps: seq<seq<nat>>, checked: bool, now: int)
    returns (db1: Db, state: TaskState)
    requires Decompose(db, id, expected, key, tokens, deps, checked, now).Ok?
    ensures id < |db.tasks| && !db.tasks[id].kind.Leaf? && db.tasks[id].state.Decomposing?
    ensures |db.tasks[id].path| <= 6 && |Kids(db, id)| + |deps| <= 8 && DepsInBatch(deps)
    ensures state == if |db.tasks[id].path| in LimitsOf(db, db.tasks[id].campaign).approveLevels then AwaitingApproval else Ready
    ensures db1 == db.(attempts := db.attempts + [Attempt(id, Planning, key, None, Split, tokens)])
    ensures var added := AddKids(db1, id, state, MaxOrdinal(db, Kids(db, id)), |db.tasks|, deps, 0, now);
      && added.Ok?
      && Decompose(db, id, expected, key, tokens, deps, checked, now) == Transition(added.value, id, Decomposed, Planner, now)
  {
    hide Kids, MaxOrdinal, DepsInBatch, IdemExists, CampaignNodes, AddKids, Transition;
    db1 := db.(attempts := db.attempts + [Attempt(id, Planning, key, None, Split, tokens)]);
    var policy := PolicyOf(db, db.tasks[id].campaign).value;
    assert policy == LimitsOf(db, db.tasks[id].campaign);
    state := if policy.Gated(db.tasks[id].Depth() + 1) then AwaitingApproval else Ready;
  }

  lemma {:induction false} AddKidsEvents(db: Db, id: TaskId, state: TaskState, maxOrd: nat, base: TaskId, deps: seq<seq<nat>>, i: nat, now: int)
    requires i <= |deps| && id < |db.tasks| && AddKids(db, id, state, maxOrd, base, deps, i, now).Ok?
    ensures AddKids(db, id, state, maxOrd, base, deps, i, now).value.events == db.events + Births(|db.tasks|, |deps| - i, state)
    decreases |deps| - i
  {
    if i < |deps| {
      var path := ChildPath(db.tasks[id].path, maxOrd + i + 1).value;
      var db1 := InsertTask(db, NewKid(db.tasks[id], id, path, state, base, deps[i], now), Planner);
      AddKidsEvents(db1, id, state, maxOrd, base, deps, i + 1, now);
      assert Births(|db.tasks|, |deps| - i, state)
        == [Event(|db.tasks|, None, state, Planner, 1, Plain)] + Births(|db.tasks| + 1, |deps| - i - 1, state);
    }
  }

  lemma {:induction false} KidsAreListed(tasks: seq<Task>, p: TaskId, n: nat)
    requires n <= |tasks|
    ensures Distinct(KidsBelow(tasks, p, n))
    ensures forall c: TaskId :: c in KidsBelow(tasks, p, n) <==> c < n && tasks[c].parent == Some(p)
  {
    if n > 0 {
      KidsAreListed(tasks, p, n - 1);
    }
  }

  /** The batch's rows as `SplitInto` describes them. */
  lemma BatchIsNew(a: seq<Task>, c: seq<Task>, id: TaskId, state: TaskState, maxOrd: nat, deps: seq<seq<nat>>, now: int)
    requires id < |a| && DepsInBatch(deps) && BatchFollows(a, c, id, state, maxOrd, |a|, deps, 0, now)
    ensures |c| == |a| + |deps| && a <= c
    ensures forall k: nat | k < |deps| :: IsNewChild(c[|a| + k], a[id], id, maxOrd + k + 1, state, deps[k], |a|, now)
  {
    hide BatchFollows;
    BatchGrows(a, c, id, state, maxOrd, |a|, deps, now);
    forall k: nat | k < |deps|
      ensures IsNewChild(c[|a| + k], a[id], id, maxOrd + k + 1, state, deps[k], |a|, now)
    {
      BatchRow(a, c, id, state, maxOrd, |a|, deps, now, k);
      assert forall j | 0 <= j < |deps[k]| :: deps[k][j] in deps[k];
    }
  }

  lemma DecomposeEnds(db: Db, id: TaskId, expected: nat, key: IdemKey, tokens: nat, deps: seq<seq<nat>>, checked: bool, now: int)
    requires Inv(db) && Decompose(db, id, expected, key, tokens, deps, checked, now).Ok?
    ensures SplitInto(db, Decompose(db, id, expected, key, tokens, deps, checked, now).value, id, key, tokens, deps, now)
  {
    hide Inv, Decompose, Transition, AddKids, Kids, MaxOrdinal, DepsInBatch, BatchFollows, IsNewChild, Births;
    var db1, state := SplitUnfolds(db, id, expected, key, tokens, deps, checked, now);
    PlanAttemptKeeps(db, Attempt(id, Planning, key, None, Split, tokens));
    SameKids(db, db1, id);
    BatchAdds(db1, id, deps, state, now);
    MaxOrdinalFrame(db, db1, Kids(db, id));
    KidsCounted(db, id);
    var db2 := AddKids(db1, id, state, |Kids(db, id)|, |db.tasks|, deps, 0, now).value;
    AddKidsEvents(db1, id, state, |Kids(db, id)|, |db.tasks|, deps, 0, now);
    BatchIsNew(db1.tasks, db2.tasks, id, state, |Kids(db, id)|, deps, now);
    TransitionEnds(db2, id, Decomposed, Planner, now);
  }

  lemma SameKids(db: Db, db1: Db, id: TaskId)
    requires db1.tasks == db.tasks
    ensures Kids(db1, id) == Kids(db, id)
  {
  }

  lemma KidsCounted(db: Db, id: TaskId)
    ensures |Kids(db, id)| == |ChildRows(db, id)|
  {
    KidsAreListed(db.tasks, id, |db.tasks|);
    ListedCount(Kids(db, id));
    assert ToSet(Kids(db, id)) == ChildRows(db, id);
  }

  // ---- claim and heartbeat ----

  /** The end of a lease of `secs` seconds from `now`, in milliseconds: at least a minute and at most a day away. */
  ghost predicate EndsLease(end: Option<int>, secs: int, now: int) {
    && end.Some?
    && (60 <= secs <= 86_400 ==> end.value == now + 1000 * secs)
    && (secs < 60 ==> end.value == now + 60_000)
    && (secs > 86_400 ==> end.value == now + 86_400_000)
  }

  /** A ready leaf whose dependencies are all done, none of them named twice. */
  ghost predicate FreeLeaf(db: Db, id: TaskId) {
    && id < |db.tasks| && db.tasks[id].kind.Leaf? && db.tasks[id].state.Ready?
    && Distinct(db.tasks[id].dependsOn)
    && forall d | d in db.tasks[id].dependsOn :: d < |db.tasks| && db.tasks[d].state.Done?
  }

  /** Row `id`'s place in the queue: campaign by campaign, and within one by path. */
  function Place(db: Db, id: TaskId): seq<nat> {
    if id < |db.tasks| then [db.tasks[id].campaign] + db.tasks[id].path else []
  }

  /** The two first differ at `k`, or the first ends there. */
  ghost predicate PartAt(a: seq<nat>, b: seq<nat>, k: nat) {
    k <= |a| && k < |b| && a[..k] == b[..k] && (k == |a| || a[k] < b[k])
  }

  lemma PartLater(a: seq<nat>, b: seq<nat>, k: nat)
    requires |a| > 0 && |b| > 0
    ensures PartAt(a, b, k + 1) <==> a[0] == b[0] && PartAt(a[1..], b[1..], k)
  {
    if k < |a| && k + 1 < |b| {
      assert a[..k + 1] == [a[0]] + a[1..][..k] && b[..k + 1] == [b[0]] + b[1..][..k];
    }
  }

  /** Where two paths part, the smaller number comes first; a path comes before those that extend it. */
  lemma {:induction false} BeforeMeans(a: seq<nat>, b: seq<nat>)
    ensures Before(a, b) <==> exists k: nat :: PartAt(a, b, k)
  {
    if |a| > 0 && |b| > 0 {
      BeforeMeans(a[1..], b[1..]);
      PartsFirst(a, b);
      if a[0] == b[0] && Before(a, b) {
        var k: nat :| PartAt(a[1..], b[1..], k);
        PartLater(a, b, k);
      }
      if k: nat :| PartAt(a, b, k) {
        if k > 0 {
          PartLater(a, b, k - 1);
        }
      }
    } else {
      PartsFirst(a, b);
    }
  }

  lemma PartsFirst(a: seq<nat>, b: seq<nat>)
    ensures PartAt(a, b, 0) <==> |b| > 0 && (|a| == 0 || a[0] < b[0])
  {
  }

  ghost predicate AreRows(tasks: seq<Task>, ids: seq<TaskId>) {
    forall k | 0 <= k < |ids| :: ids[k] < |tasks|
  }

  /** The first `limit` free leaves that nobody has locked, in queue order. */
  ghost predicate FirstOfQueue(db: Db, limit: nat, busy: set<TaskId>, ids: seq<TaskId>) {
    && Distinct(ids) && |ids| <= limit
    && (forall x | x in ids :: FreeLeaf(db, x) && x !in busy)
    && (forall a, b | 0 <= a < b < |ids| :: !Before(Place(db, ids[b]), Place(db, ids[a])))
    && forall x: TaskId | FreeLeaf(db, x) && x !in busy && x !in ids ::
      |ids| == limit && forall c | c in ids :: !Before(Place(db, x), Place(db, c))
  }

  /** The pending attempts of a claim, the first of them at `position`. */
  ghost function ClaimAttempts(tasks: seq<Task>, ids: seq<TaskId>, position: nat, owner: Owner, now: int): seq<Attempt>
    requires AreRows(tasks, ids)
  {
    if |ids| == 0 then []
    else
      [Attempt(ids[0], Work, IdemKey(ids[0], tasks[ids[0]].version + 1, now, position), Some(owner), Pending, 0)]
      + ClaimAttempts(tasks, ids[1..], position + 1, owner, now)
  }

  /** The moves of the listed rows, in the list's order. */
  ghost function Moves(tasks: seq<Task>, ids: seq<TaskId>, to: TaskState, actor: ActorClass): seq<Event>
    requires AreRows(tasks, ids)
  {
    if |ids| == 0 then [] else [MoveOf(ids[0], tasks[ids[0]], to, actor)] + Moves(tasks, ids[1..], to, actor)
  }

  /** The listed rows are leased to `owner`, each with a pending attempt and an event; no other row moves. */
  ghost predicate LeasedTo(db: Db, db': Db, ids: seq<TaskId>, owner: Owner, secs: int, now: int) {
    && |db'.tasks| == |db.tasks|
    && (forall i: TaskId | i < |db.tasks| && i !in ids :: db'.tasks[i] == db.tasks[i])
    && AreRows(db.tasks, ids)
    && (forall i: TaskId | i in ids ::
          && EndsLease(db'.tasks[i].leaseUntil, secs, now)
          && db'.tasks[i] == db.tasks[i].(state := Claimed, version := db.tasks[i].version + 1, updatedAt := now,
                                          claimedBy := Some(owner), leaseUntil := db'.tasks[i].leaseUntil))
    && db'.events == db.events + Moves(db.tasks, ids, Claimed, Driver)
    && db'.attempts == db.attempts + ClaimAttempts(db.tasks, ids, 0, owner, now)
  }

  ghost predicate ClaimTaken(db: Db, db': Db, limit: nat, owner: Owner, secs: int, busy: set<TaskId>, now: int) {
    exists ids :: FirstOfQueue(db, limit, busy, ids) && LeasedTo(db, db', ids, owner, secs, now)
  }

  lemma {:induction false} MovesFrame(a: seq<Task>, b: seq<Task>, ids: seq<TaskId>, to: TaskState, actor: ActorClass)
    requires AreRows(a, ids) && AreRows(b, ids) && forall k | 0 <= k < |ids| :: a[ids[k]] == b[ids[k]]
    ensures Moves(a, ids, to, actor) == Moves(b, ids, to, actor)
  {
    if |ids| > 0 {
      MovesFrame(a, b, ids[1..], to, actor);
    }
  }

  lemma {:induction false} ClaimAttemptsFrame(a: seq<Task>, b: seq<Task>, ids: seq<TaskId>, position: nat, owner: Owner, now: int)
    requires AreRows(a, ids) && AreRows(b, ids) && forall k | 0 <= k < |ids| :: a[ids[k]] == b[ids[k]]
    ensures ClaimAttempts(a, ids, position, owner, now) == ClaimAttempts(b, ids, position, owner, now)
  {
    if |ids| > 0 {
      ClaimAttemptsFrame(a, b, ids[1..], position + 1, owner, now);
    }
  }

  lemma {:induction false} ClaimEachLogs(db: Db, ids: seq<TaskId>, position: nat, owner: Owner, lease: int, now: int)
    requires ClaimEach(db, ids, position, owner, lease, now).Ok? && Distinct(ids) && AreRows(db.tasks, ids)
    requires forall k | 0 <= k < |ids| :: db.tasks[ids[k]].state.Ready?
    ensures var db' := ClaimEach(db, ids, position, owner, lease, now).value;
      && db'.events == db.events + Moves(db.tasks, ids, Claimed, Driver)
      && db'.attempts == db.attempts + ClaimAttempts(db.tasks, ids, position, owner, now)
    decreases |ids|
  {
    hide ClaimOne, MoveOf;
    if |ids| > 0 {
      var db1 := ClaimOne(db, ids[0], position, owner, lease, now).value;
      ClaimOneLogs(db, ids[0], position, owner, lease, now);
      OthersAreRows(db.tasks, db1.tasks, ids);
      ClaimEachLogs(db1, ids[1..], position + 1, owner, lease, now);
      MovesFrame(db.tasks, db1.tasks, ids[1..], Claimed, Driver);
      ClaimAttemptsFrame(db.tasks, db1.tasks, ids[1..], position + 1, owner, now);
    }
  }

  /** The first row of the list has changed, and the rest of the list has not. */
  lemma OthersAreRows(a: seq<Task>, b: seq<Task>, ids: seq<TaskId>)
    requires |ids| > 0 && Distinct(ids) && AreRows(a, ids) && |a| == |b|
    requires forall i: TaskId | i < |a| && i != ids[0] :: b[i] == a[i]
    ensures Distinct(ids[1..]) && ids[0] !in ids[1..] && AreRows(a, ids[1..]) && AreRows(b, ids[1..])
    ensures forall k | 0 <= k < |ids[1..]| :: a[ids[1..][k]] == b[ids[1..][k]]
  {
    assert forall k | 0 <= k < |ids| - 1 :: ids[1..][k] == ids[k + 1] && ids[k + 1] != ids[0];
  }

  lemma ClaimOneLogs(db: Db, id: TaskId, position: nat, owner: Owner, lease: int, now: int)
    requires id < |db.tasks| && db.tasks[id].state.Ready? && ClaimOne(db, id, position, owner, lease, now).Ok?
    ensures var db' := ClaimOne(db, id, position, owner, lease, now).value;
      && OnlyRow(db, db', id)
      && db'.events == db.events + [MoveOf(id, db.tasks[id], Claimed, Driver)]
      && db'.attempts
        == db.attempts + [Attempt(id, Work, IdemKey(id, db.tasks[id].version + 1, now, position), Some(owner), Pending, 0)]
  {
  }

  lemma {:induction false} CountedOnce<T>(s: seq<T>)
    requires |ToSet(s)| == |s|
    ensures Distinct(s)
  {
    if |s| > 0 {
      var front := s[..|s| - 1];
      var last := s[|s| - 1];
      ListedCount(front);
      assert s == front + [last];
      assert ToSet(s) == ToSet(front) + {last};
      assert last in ToSet(front) ==> ToSet(s) == ToSet(front);
      CountedOnce(front);
      assert last !in front;
    }
  }

  /** The count of done dependencies matches exactly when they are distinct and all done. */
  lemma ClaimableIsFree(db: Db, id: TaskId)
    ensures Claimable(db, id) <==> FreeLeaf(db, id)
  {
    if id < |db.tasks| {
      var deps := db.tasks[id].dependsOn;
      var ready := set d | d in deps && d < |db.tasks| && db.tasks[d].state.Done?;
      assert ready <= ToSet(deps);
      SubsetCount(ready, ToSet(deps));
      ListedCount(deps);
      if |ready| == |deps| {
        CountedOnce(deps);
        assert forall d | d in deps :: d in ToSet(deps);
      }
      if FreeLeaf(db, id) {
        assert ready == ToSet(deps);
      }
    }
  }

  lemma CandidatesAreFirst(db: Db, limit: nat, busy: set<TaskId>)
    ensures FirstOfQueue(db, limit, busy, Candidates(db, limit, busy))
  {
    hide Claimable, FreeLeaf, Candidates, Before;
    CandidatesAreClaimable(db, limit, busy);
    forall x: TaskId
      ensures Claimable(db, x) <==> FreeLeaf(db, x)
      ensures FreeLeaf(db, x) ==> x < |db.tasks| && QueueKey(db.tasks)(x) == Place(db, x)
    {
      ClaimableIsFree(db, x);
      FreeLeafIsRow(db, x);
    }
    var ids := Candidates(db, limit, busy);
    forall a, b | 0 <= a < b < |ids|
      ensures !Before(Place(db, ids[b]), Place(db, ids[a]))
    {
      assert ids[a] in ids && ids[b] in ids;
    }
  }

  lemma FreeLeafIsRow(db: Db, x: TaskId)
    ensures FreeLeaf(db, x) ==> x < |db.tasks| && db.tasks[x].state.Ready?
  {
  }

  lemma ClaimEnds(db: Db, limit: nat, owner: Owner, leaseSecs: int, busy: set<TaskId>, now: int)
    requires Claim(db, limit, owner, leaseSecs, busy, now).Ok?
    ensures ClaimTaken(db, Claim(db, limit, owner, leaseSecs, busy, now).value, limit, owner, leaseSecs, busy, now)
  {
    hide Candidates, ClaimEach, FirstOfQueue;
    CandidatesAreFirst(db, limit, busy);
    var ids := if limit == 0 then [] else Candidates(db, limit, busy);
    if limit == 0 {
      NobodyIsFirst(db, busy);
    } else {
      QueueIsReady(db, limit, busy, ids);
      ClaimEachGives(db, ids, 0, owner, ClampLease(leaseSecs), now);
      ClaimEachLogs(db, ids, 0, owner, ClampLease(leaseSecs), now);
    }
    assert LeasedTo(db, Claim(db, limit, owner, leaseSecs, busy, now).value, ids, owner, leaseSecs, now);
  }

  lemma NobodyIsFirst(db: Db, busy: set<TaskId>)
    ensures FirstOfQueue(db, 0, busy, [])
  {
  }

  lemma QueueIsReady(db: Db, limit: nat, busy: set<TaskId>, ids: seq<TaskId>)
    requires FirstOfQueue(db, limit, busy, ids)
    ensures Distinct(ids) && AreRows(db.tasks, ids) && forall k | 0 <= k < |ids| :: db.tasks[ids[k]].state.Ready?
  {
    assert forall k | 0 <= k < |ids| :: ids[k] in ids;
  }

  /** The lessee's lease runs anew from `now`; state, version and both logs stay. */
  ghost predicate Extended(db: Db, db': Db, id: TaskId, owner: Owner, secs: int, now: int) {
    && OnlyRow(db, db', id)
    && db.tasks[id].claimedBy == Some(owner)
    && EndsLease(db'.tasks[id].leaseUntil, secs, now)
    && db'.tasks[id] == db.tasks[id].(leaseUntil := db'.tasks[id].leaseUntil, updatedAt := now)
    && db'.events == db.events && db'.attempts == db.attempts
  }

  lemma HeartbeatEnds(db: Db, id: TaskId, owner: Owner, leaseSecs: int, now: int)
    requires Heartbeat(db, id, owner, leaseSecs, now).Ok?
    ensures Extended(db, Heartbeat(db, id, owner, leaseSecs, now).value, id, owner, leaseSecs, now)
  {
  }

  // ---- the lessee's calls, and the users' ----

  lemma StartEnds(db: Db, id: TaskId, owner: Owner, now: int)
    requires Start(db, id, owner, now).Ok?
    ensures RowMoves(db, Start(db, id, owner, now).value, id, Running, Worker, now)
    ensures Start(db, id, owner, now).value.attempts == db.attempts
  {
    hide Transition, RowMoves;
    TransitionEnds(db, id, Running, Worker, now);
  }

  lemma CompleteEnds(db: Db, id: TaskId, owner: Owner, checked: bool, now: int)
    requires Complete(db, id, owner, checked, now).Ok?
    ensures RowMoves(db, Complete(db, id, owner, checked, now).value, id, InReview, Worker, now)
  {
    hide Transition, CloseAttempts;
    TransitionEnds(db, id, InReview, Worker, now);
  }

  /** An event about a row in review, and nothing else; the mark that a review waits is written once. */
  ghost predicate Noted(db: Db, db': Db, id: TaskId, awaiting: bool) {
    && id < |db.tasks| && db'.tasks == db.tasks && db'.attempts == db.attempts
    && var marked := exists k | 0 <= k < |db.events| :: db.events[k].task == id && db.events[k].note == AwaitingPrApproval;
      var note := if awaiting then AwaitingPrApproval else PollError;
      db'.events == if awaiting && marked then db.events
                    else db.events + [Event(id, Some(InReview), InReview, Poller, db.tasks[id].version, note)]
  }

  lemma ReviewNoteEnds(db: Db, id: TaskId, awaiting: bool)
    requires ReviewNote(db, id, awaiting).Ok?
    ensures Noted(db, ReviewNote(db, id, awaiting).value, id, awaiting)
  {
    assert db.tasks[id := db.tasks[id]] == db.tasks;
  }

  /** A gated row is released; a row in review only gets the user's word on it. */
  ghost predicate Approved(db: Db, db': Db, id: TaskId, now: int) {
    && id < |db.tasks| && db'.attempts == db.attempts
    && if db.tasks[id].state.InReview? then
         && db'.tasks == db.tasks
         && db'.events == db.events + [Event(id, Some(InReview), InReview, User, db.tasks[id].version, PrApproved)]
       else RowMoves(db, db', id, Ready, User, now)
  }

  lemma ApproveEnds(db: Db, id: TaskId, expected: nat, actor: ActorClass, now: int)
    requires Approve(db, id, expected, actor, now).Ok?
    ensures Approved(db, Approve(db, id, expected, actor, now).value, id, now)
  {
    hide Transition, RowMoves;
    if db.tasks[id].state.InReview? {
      assert db.tasks[id := db.tasks[id]] == db.tasks;
    } else {
      TransitionEnds(db, id, Ready, User, now);
    }
  }

  lemma AnswerEnds(db: Db, id: TaskId, expected: nat, actor: ActorClass, checked: bool, now: int)
    requires Answer(db, id, expected, actor, checked, now).Ok?
    ensures RowMoves(db, Answer(db, id, expected, actor, checked, now).value, id, Ready, User, now)
    ensures Answer(db, id, expected, actor, checked, now).value.attempts == db.attempts
  {
    hide Transition, RowMoves;
    TransitionEnds(db, id, Ready, User, now);
  }

  lemma RetryEnds(db: Db, id: TaskId, actor: ActorClass, now: int)
    requires Rooted(db) && Retry(db, id, actor, now).Ok?
    ensures MovesThenPass(db, Retry(db, id, actor, now).value, id, Ready, User, now)
    ensures Retry(db, id, actor, now).value.attempts == db.attempts
  {
    hide Transition, RollupFrom, RowMoves;
    TransitionEnds(db, id, Ready, User, now);
    MoveAndPassEnds(db, db, id, Ready, User, now);
  }

  /** The root has the new policy, one version on and in its old state. */
  ghost predicate PolicySet(db: Db, db': Db, id: TaskId, policy: Policy, now: int) {
    && OnlyRow(db, db', id) && db'.attempts == db.attempts
    && var t := db.tasks[id];
      && db'.tasks[id] == t.(policy := Some(policy), version := t.version + 1, updatedAt := now)
      && db'.events == db.events + [Event(id, Some(t.state), t.state, User, t.version + 1, PolicyUpdated)]
  }

  lemma UpdatePolicyEnds(db: Db, id: TaskId, policy: Policy, actor: ActorClass, now: int)
    requires UpdatePolicy(db, id, policy, actor, now).Ok?
    ensures PolicySet(db, UpdatePolicy(db, id, policy, actor, now).value, id, policy, now)
  {
  }
}
