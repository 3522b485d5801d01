/** The fleet's forge-poll jobs: how a pass over the tenants' rosters changes them, and what holds over runs. */
module FleetSync {
  import opened Outcomes
  import opened Segments
  import opened Collections
  import Texts

  type Goal = string
  type Session = string

  // ---- goals ----

  function JobGoal(tenant: string, id: string): Goal {
    tenant + "/" + id
  }

  /** The place of the first slash. */
  function Slash(goal: Goal): (r: Option<nat>)
    ensures r.Some? ==> r.value < |goal| && goal[r.value] == '/' && forall i | 0 <= i < r.value :: goal[i] != '/'
    ensures r.None? ==> forall i | 0 <= i < |goal| :: goal[i] != '/'
  {
    if |goal| == 0 then None
    else if goal[0] == '/' then Some(0)
    else
      match Slash(goal[1..])
      case Some(k) => Some(k + 1)
      case None => None
  }

  predicate DrivableTenant(tenant: string) {
    tenant == "" || SafeSegment(tenant)
  }

  function ParseJobGoal(goal: Goal): Option<(string, string)> {
    match Slash(goal)
    case None => None
    case Some(k) =>
      if DrivableTenant(goal[..k]) && SafeSegment(goal[k + 1..]) then Some((goal[..k], goal[k + 1..])) else None
  }

  lemma SlashOfGoal(tenant: string, id: string)
    requires forall i | 0 <= i < |tenant| :: tenant[i] != '/'
    ensures Slash(JobGoal(tenant, id)) == Some(|tenant|)
    ensures JobGoal(tenant, id)[..|tenant|] == tenant && JobGoal(tenant, id)[|tenant| + 1..] == id
  {
    assert JobGoal(tenant, id)[|tenant|] == '/';
  }

  lemma DrivableHasNoSlash(tenant: string)
    requires DrivableTenant(tenant)
    ensures forall i | 0 <= i < |tenant| :: tenant[i] != '/'
  {
  }

  /** Reading back a goal gives what it was made of, exactly when both halves are safe or the tenant is empty. */
  lemma GoalRoundTrip(tenant: string, id: string)
    ensures ParseJobGoal(JobGoal(tenant, id)) == Some((tenant, id)) <==> DrivableTenant(tenant) && SafeSegment(id)
  {
    if DrivableTenant(tenant) && SafeSegment(id) {
      DrivableHasNoSlash(tenant);
      SlashOfGoal(tenant, id);
    }
  }

  /** Whatever is read as a goal is the goal of what was read. */
  lemma ParsedGoal(goal: Goal)
    requires ParseJobGoal(goal).Some?
    ensures JobGoal(ParseJobGoal(goal).value.0, ParseJobGoal(goal).value.1) == goal
  {
    var k := Slash(goal).value;
    assert goal == goal[..k] + [goal[k]] + goal[k + 1..];
  }

  // ---- the plan of one pass ----

  predicate InScope(goal: Goal, synced: set<string>) {
    ParseJobGoal(goal).Some? && ParseJobGoal(goal).value.0 in synced
  }

  datatype Addition = Addition(goal: Goal, secs: nat)

  /** Both lists are in ascending order of their goals. */
  datatype JobPlan = JobPlan(cancel: seq<Goal>, add: seq<Addition>)

  function Goals(add: seq<Addition>): (goals: seq<Goal>)
    ensures |goals| == |add| && forall i | 0 <= i < |add| :: goals[i] == add[i].goal
  {
    seq(|add|, i requires 0 <= i < |add| => add[i].goal)
  }

  /** The jobs that the additions make, the later ones last. */
  function Added(add: seq<Addition>): map<Goal, nat> {
    if |add| == 0 then map[] else Added(add[..|add| - 1])[add[|add| - 1].goal := add[|add| - 1].secs]
  }

  function Lookup<V>(m: map<Goal, V>, goal: Goal): Option<V> {
    if goal in m then Some(m[goal]) else None
  }

  /** What is no longer wanted as it is goes; what is wanted and not there as it is comes. */
  ghost predicate Diffs(cancel: set<Goal>, add: map<Goal, nat>, current: map<Goal, nat>, wanted: map<Goal, nat>, synced: set<string>) {
    && (forall g :: g in cancel <==> g in current && InScope(g, synced) && Lookup(wanted, g) != Some(current[g]))
    && (forall g :: g in add <==> g in wanted && InScope(g, synced) && Lookup(current, g) != Some(wanted[g]))
    && forall g | g in add && g in wanted :: add[g] == wanted[g]
  }

  ghost predicate PlanIs(plan: JobPlan, current: map<Goal, nat>, wanted: map<Goal, nat>, synced: set<string>) {
    && Texts.Ascending(plan.cancel) && Texts.Ascending(Goals(plan.add))
    && Diffs(ToSet(plan.cancel), Added(plan.add), current, wanted, synced)
  }

  lemma {:induction false} AddedKeys(add: seq<Addition>)
    ensures forall g :: g in Added(add) <==> g in Goals(add)
  {
    if |add| > 0 {
      var front, last := add[..|add| - 1], add[|add| - 1];
      AddedKeys(front);
      assert Goals(add) == Goals(front) + [last.goal];
    }
  }

  lemma {:induction false} AddedSecs(add: seq<Addition>, i: nat)
    requires Distinct(Goals(add)) && i < |add|
    ensures add[i].goal in Added(add) && Added(add)[add[i].goal] == add[i].secs
  {
    var last := |add| - 1;
    if i < last {
      assert Goals(add[..last]) == Goals(add)[..last];
      AddedSecs(add[..last], i);
      assert Goals(add)[i] != Goals(add)[last];
    }
  }

  lemma AscendingIsDistinct(texts: seq<string>)
    requires Texts.Ascending(texts)
    ensures Distinct(texts)
  {
    forall i, j | 0 <= i < j < |texts|
      ensures texts[i] != texts[j]
    {
      Texts.NotBeforeItself(texts[i]);
    }
  }

  method PlanJobs(current: map<Goal, nat>, wanted: map<Goal, nat>, synced: set<string>) returns (plan: JobPlan)
    ensures PlanIs(plan, current, wanted, synced)
  {
    var cancel: set<Goal> := {};
    var left := current.Keys;
    while left != {}
      invariant left <= current.Keys
      invariant forall g :: g in cancel <==> g in current && g !in left && InScope(g, synced) && Lookup(wanted, g) != Some(current[g])
      decreases |left|
    {
      var goal :| goal in left;
      left := left - {goal};
      if InScope(goal, synced) && Lookup(wanted, goal) != Some(current[goal]) {
        cancel := cancel + {goal};
      }
    }
    var add: map<Goal, nat> := map[];
    left := wanted.Keys;
    while left != {}
      invariant left <= wanted.Keys
      invariant forall g :: g in add <==> g in wanted && g !in left && InScope(g, synced) && Lookup(current, g) != Some(wanted[g])
      invariant forall g | g in add && g in wanted :: add[g] == wanted[g]
      decreases |left|
    {
      var goal :| goal in left;
      left := left - {goal};
      var changed := goal in current && current[goal] != wanted[goal];
      if InScope(goal, synced) && (changed || goal !in current) {
        add := add[goal := wanted[goal]];
      }
    }
    plan := Sorted(cancel, add);
  }

  method Sorted(cancel: set<Goal>, add: map<Goal, nat>) returns (plan: JobPlan)
    ensures Texts.Ascending(plan.cancel) && Texts.Ascending(Goals(plan.add))
    ensures ToSet(plan.cancel) == cancel && Added(plan.add) == add
  {
    var cancelled := Texts.Listed(cancel);
    var goals := Texts.Listed(add.Keys);
    assert forall i | 0 <= i < |goals| :: goals[i] in ToSet(goals);
    plan := JobPlan(cancelled, seq(|goals|, i requires 0 <= i < |goals| => Addition(goals[i], add[goals[i]])));
    assert Goals(plan.add) == goals;
    AddedKeys(plan.add);
    AscendingIsDistinct(goals);
    forall g | g in add
      ensures g in Added(plan.add) && Added(plan.add)[g] == add[g]
    {
      assert g in ToSet(goals);
      var i :| 0 <= i < |goals| && goals[i] == g;
      AddedSecs(plan.add, i);
    }
    forall g | g in Added(plan.add)
      ensures g in add
    {
      assert g in ToSet(goals);
    }
    assert Added(plan.add) == add;
  }

  function Applied(current: map<Goal, nat>, plan: JobPlan): map<Goal, nat> {
    (current - ToSet(plan.cancel)) + Added(plan.add)
  }

  /**
   * Applying a plan makes the jobs of the synced tenants what was wanted, leaves every other job alone, and
   * leaves nothing more to plan.
   */
  lemma PlanConverges(current: map<Goal, nat>, wanted: map<Goal, nat>, synced: set<string>, plan: JobPlan)
    requires PlanIs(plan, current, wanted, synced)
    ensures forall g :: Lookup(Applied(current, plan), g) == if InScope(g, synced) then Lookup(wanted, g) else Lookup(current, g)
    ensures forall next :: PlanIs(next, Applied(current, plan), wanted, synced) <==> next == JobPlan([], [])
  {
    var after := Applied(current, plan);
    forall g
      ensures Lookup(after, g) == if InScope(g, synced) then Lookup(wanted, g) else Lookup(current, g)
    {
      assert g in ToSet(plan.cancel) <==> g in current && InScope(g, synced) && Lookup(wanted, g) != Some(current[g]);
      assert g in Added(plan.add) <==> g in wanted && InScope(g, synced) && Lookup(current, g) != Some(wanted[g]);
    }
    forall next | PlanIs(next, after, wanted, synced)
      ensures next == JobPlan([], [])
    {
      NothingLeft(next, after, wanted, synced);
    }
    forall g
      ensures !(g in after && InScope(g, synced) && Lookup(wanted, g) != Some(after[g]))
      ensures !(g in wanted && InScope(g, synced) && Lookup(after, g) != Some(wanted[g]))
    {
      assert Lookup(after, g) == if InScope(g, synced) then Lookup(wanted, g) else Lookup(current, g);
    }
  }

  lemma SomethingListed(texts: seq<string>)
    ensures texts == [] || texts[0] in ToSet(texts)
  {
  }

  lemma NothingLeft(next: JobPlan, after: map<Goal, nat>, wanted: map<Goal, nat>, synced: set<string>)
    requires PlanIs(next, after, wanted, synced)
    requires forall g | InScope(g, synced) :: Lookup(after, g) == Lookup(wanted, g)
    ensures next == JobPlan([], [])
  {
    AddedKeys(next.add);
    SomethingListed(next.cancel);
    SomethingListed(Goals(next.add));
  }

  // ---- one pass over the rosters ----

  datatype Row = Row(id: string, enabled: bool, hasForge: bool, pollSecs: nat)
  {
    predicate Polls() {
      enabled && hasForge
    }
  }

  /** What a tenant's scoped half of a pass reports: its rows, and the owner sessions admitted for them. */
  datatype TenantPass = TenantPass(rows: seq<Row>, admitted: set<Session>)

  /**
   * What a pass meets: the tenants found, or `None` when discovery failed; the tenants whose roster could be
   * read; and the goals that the scheduler refuses.
   */
  datatype Pass = Pass(discovery: Option<seq<string>>, rosters: map<string, TenantPass>, refused: set<Goal>)
  {
    /** The tenants whose roster was read under their own scope. */
    predicate Synced(tenant: string) {
      discovery.Some? && tenant in discovery.value && DrivableTenant(tenant) && tenant in rosters
    }

    /** A tenant that a successful discovery no longer lists. */
    predicate Vanished(tenant: string) {
      discovery.Some? && tenant !in discovery.value
    }
  }

  /** The rows that are polled, by id; a later row wins. */
  function Polled(rows: seq<Row>): map<string, nat> {
    if |rows| == 0 then map[]
    else
      var last := rows[|rows| - 1];
      var before := Polled(rows[..|rows| - 1]);
      if last.Polls() then before[last.id := last.pollSecs] else before
  }

  /** The interval that the pass wants for a goal, for a tenant that it has read. */
  function WantedAt(pass: Pass, goal: Goal): Option<nat> {
    match ParseJobGoal(goal)
    case None => None
    case Some((tenant, id)) =>
      if pass.Synced(tenant) && id in Polled(pass.rosters[tenant].rows) then Some(Polled(pass.rosters[tenant].rows)[id])
      else None
  }

  datatype Job = Job(id: nat, secs: nat)

  /** The map holds, for every readable goal of the tenants listed so far, what the pass wants. */
  ghost predicate WantedIs(wanted: map<Goal, nat>, pass: Pass, tenants: set<string>) {
    forall g | ParseJobGoal(g).Some? ::
      Lookup(wanted, g) == if ParseJobGoal(g).value.0 in tenants then WantedAt(pass, g) else None
  }

  /** Insert one tenant's polled rows under their goals. */
  method AddRows(wanted: map<Goal, nat>, tenant: string, rows: seq<Row>) returns (all: map<Goal, nat>)
    requires DrivableTenant(tenant)
    ensures forall g | ParseJobGoal(g).Some? ::
      Lookup(all, g) ==
        if ParseJobGoal(g).value.0 == tenant && ParseJobGoal(g).value.1 in Polled(rows)
        then Some(Polled(rows)[ParseJobGoal(g).value.1]) else Lookup(wanted, g)
  {
    all := wanted;
    for i := 0 to |rows|
      invariant forall g | ParseJobGoal(g).Some? ::
        Lookup(all, g) ==
          if ParseJobGoal(g).value.0 == tenant && ParseJobGoal(g).value.1 in Polled(rows[..i])
          then Some(Polled(rows[..i])[ParseJobGoal(g).value.1]) else Lookup(wanted, g)
    {
      assert rows[..i + 1][..i] == rows[..i];
      if rows[i].Polls() {
        var goal := JobGoal(tenant, rows[i].id);
        GoalsOfTenant(tenant, rows[i].id);
        all := all[goal := rows[i].pollSecs];
      }
    }
    assert rows[..|rows|] == rows;
  }

  /** A goal that can be read is this one exactly when it is read as this tenant and this id. */
  lemma GoalsOfTenant(tenant: string, id: string)
    requires DrivableTenant(tenant)
    ensures forall g | ParseJobGoal(g).Some? :: g == JobGoal(tenant, id) <==> ParseJobGoal(g).value == (tenant, id)
  {
    forall g | ParseJobGoal(g).Some?
      ensures g == JobGoal(tenant, id) <==> ParseJobGoal(g).value == (tenant, id)
    {
      ParsedGoal(g);
      DrivableHasNoSlash(tenant);
      SlashOfGoal(tenant, id);
    }
  }

  /** What one pass does to the job of one goal. */
  ghost predicate GoalStep(pass: Pass, goal: Goal, before: Option<Job>, after: Option<Job>) {
    match ParseJobGoal(goal)
    case None => after == before
    case Some((tenant, _)) =>
      if pass.Vanished(tenant) then after.None?
      else if !pass.Synced(tenant) then after == before
      else
        match WantedAt(pass, goal)
        case None => after.None?
        case Some(secs) =>
          if before.Some? && before.value.secs == secs then after == before
          else if goal in pass.refused then after.None?
          else after.Some? && after.value.secs == secs
  }

  /** The job is the one from before, or has an id that the pass has minted: a new interval makes a new job. */
  predicate KeptOrMinted(before: Option<Job>, job: Job, from: nat, to: nat) {
    before == Some(job) || from <= job.id < to
  }

  /** What one pass does to the sessions admitted for one tenant, and which it removes from the host. */
  ghost predicate SessionStep(pass: Pass, tenant: string, before: Option<set<Session>>, after: Option<set<Session>>, removed: set<Session>) {
    var had := if before.Some? then before.value else {};
    if pass.Vanished(tenant) then after.None? && removed == had
    else if pass.Synced(tenant) then
      after == Some(pass.rosters[tenant].admitted) && removed == had - pass.rosters[tenant].admitted
    else after == before && removed == {}
  }

  class Driver {
    var jobs: map<Goal, Job>
    var nextId: nat
    var admitted: map<string, set<Session>>

    constructor ()
      ensures jobs == map[] && admitted == map[]
    {
      jobs, nextId, admitted := map[], 0, map[];
    }

    method SyncOnce(pass: Pass) returns (removed: map<string, set<Session>>)
      modifies this
      ensures forall g :: GoalStep(pass, g, Lookup(old(jobs), g), Lookup(jobs, g))
      ensures forall t, id, secs | Reads(pass, t) && SafeSegment(id) && JobGoal(t, id) !in pass.refused ::
        HasJob(jobs, JobGoal(t, id), secs) <==> AsksFor(pass.rosters[t].rows, id, secs)
      ensures forall t, id | DrivableTenant(t) && SafeSegment(id) && Misses(pass, t) :: JobGoal(t, id) !in jobs
      ensures forall g | g in jobs :: KeptOrMinted(Lookup(old(jobs), g), jobs[g], old(nextId), nextId)
      ensures forall t :: SessionStep(pass, t, Lookup(old(admitted), t), Lookup(admitted, t), if t in removed then removed[t] else {})
    {
      removed := map[];
      if pass.discovery.None? {
        return;
      }
      var tenants := pass.discovery.value;
      var synced: set<string> := {};
      var wanted: map<Goal, nat> := map[];
      for i := 0 to |tenants|
        invariant unchanged(this)
        invariant forall t :: t in synced <==> t in tenants[..i] && pass.Synced(t)
        invariant WantedIs(wanted, pass, synced)
      {
        assert tenants[..i + 1] == tenants[..i] + [tenants[i]];
        assert tenants[i] in tenants;
        if DrivableTenant(tenants[i]) && tenants[i] in pass.rosters {
          wanted := AddRows(wanted, tenants[i], pass.rosters[tenants[i]].rows);
          synced := synced + {tenants[i]};
        }
      }
      assert tenants[..|tenants|] == tenants;
      removed := Retire(pass, synced);
      ApplyPlan(pass, wanted, synced);
      forall t, id, secs | DrivableTenant(t) && SafeSegment(id)
        ensures Reads(pass, t) && JobGoal(t, id) !in pass.refused ==>
          (HasJob(jobs, JobGoal(t, id), secs) <==> AsksFor(pass.rosters[t].rows, id, secs))
      {
        PassMeans(pass, old(jobs), jobs, t, id, secs);
      }
      forall t, id | DrivableTenant(t) && SafeSegment(id) && Misses(pass, t)
        ensures JobGoal(t, id) !in jobs
      {
        PassMeans(pass, old(jobs), jobs, t, id, 0);
      }
    }

    /** Drop the sessions of rows that have gone, and remember the ones admitted now. */
    method Retire(pass: Pass, synced: set<string>) returns (removed: map<string, set<Session>>)
      requires pass.discovery.Some? && forall t :: t in synced <==> pass.Synced(t)
      modifies this`admitted
      ensures forall t :: SessionStep(pass, t, Lookup(old(admitted), t), Lookup(admitted, t), if t in removed then removed[t] else {})
    {
      removed := map t | t in admitted && (t in synced || pass.Vanished(t)) ::
        if t in synced then admitted[t] - pass.rosters[t].admitted else admitted[t];
      var kept := map t | t in admitted && t !in synced && !pass.Vanished(t) :: admitted[t];
      var now := map t | t in synced :: pass.rosters[t].admitted;
      admitted := kept + now;
    }

    /** Diff the jobs of the synced and the vanished tenants against what is wanted, and apply the plan. */
    method ApplyPlan(pass: Pass, wanted: map<Goal, nat>, synced: set<string>)
      requires pass.discovery.Some? && forall t :: t in synced <==> pass.Synced(t)
      requires WantedIs(wanted, pass, synced)
      modifies this`jobs, this`nextId
      ensures forall g :: GoalStep(pass, g, Lookup(old(jobs), g), Lookup(jobs, g))
      ensures forall g | g in jobs :: KeptOrMinted(Lookup(old(jobs), g), jobs[g], old(nextId), nextId)
    {
      var gone := set g | g in jobs && ParseJobGoal(g).Some? && pass.Vanished(ParseJobGoal(g).value.0) :: ParseJobGoal(g).value.0;
      var current := map g | g in jobs :: jobs[g].secs;
      var plan := PlanJobs(current, wanted, synced + gone);
      Cancel(plan.cancel);
      Schedule(plan.add, pass.refused);
      forall g
        ensures GoalStep(pass, g, Lookup(old(jobs), g), Lookup(jobs, g))
      {
        PlanStep(pass, old(jobs), jobs, wanted, synced, gone, plan, g);
      }
    }

    method Cancel(goals: seq<Goal>)
      modifies this`jobs
      ensures jobs == old(jobs) - ToSet(goals)
    {
      for i := 0 to |goals|
        invariant jobs == old(jobs) - ToSet(goals[..i])
      {
        assert goals[..i + 1] == goals[..i] + [goals[i]];
        jobs := jobs - {goals[i]};
      }
      assert goals[..|goals|] == goals;
    }

    /** Register the goals that the scheduler accepts, in order. */
    method Schedule(add: seq<Addition>, refused: set<Goal>)
      modifies this`jobs, this`nextId
      ensures forall g | g in Added(add) && g !in refused :: g in jobs && jobs[g].secs == Added(add)[g]
      ensures forall g | !(g in Added(add) && g !in refused) :: Lookup(jobs, g) == Lookup(old(jobs), g)
      ensures forall g | g in jobs :: KeptOrMinted(Lookup(old(jobs), g), jobs[g], old(nextId), nextId)
    {
      for i := 0 to |add|
        invariant forall g | g in Added(add[..i]) && g !in refused :: g in jobs && jobs[g].secs == Added(add[..i])[g]
        invariant forall g | !(g in Added(add[..i]) && g !in refused) :: Lookup(jobs, g) == Lookup(old(jobs), g)
        invariant old(nextId) <= nextId
        invariant forall g | g in jobs :: KeptOrMinted(Lookup(old(jobs), g), jobs[g], old(nextId), nextId)
      {
        assert add[..i + 1][..i] == add[..i];
        if add[i].goal !in refused {
          jobs := jobs[add[i].goal := Job(nextId, add[i].secs)];
          nextId := nextId + 1;
        }
      }
      assert add[..|add|] == add;
    }
  }

  lemma PlanStep(pass: Pass, before: map<Goal, Job>, after: map<Goal, Job>, wanted: map<Goal, nat>, synced: set<string>, gone: set<string>, plan: JobPlan, g: Goal)
    requires pass.discovery.Some? && forall t :: t in synced <==> pass.Synced(t)
    requires WantedIs(wanted, pass, synced)
    requires gone == set h | h in before && ParseJobGoal(h).Some? && pass.Vanished(ParseJobGoal(h).value.0) :: ParseJobGoal(h).value.0
    requires PlanIs(plan, map h | h in before :: before[h].secs, wanted, synced + gone)
    requires g in Added(plan.add) && g !in pass.refused ==> g in after && after[g].secs == Added(plan.add)[g]
    requires !(g in Added(plan.add) && g !in pass.refused) ==> Lookup(after, g) == Lookup(before - ToSet(plan.cancel), g)
    ensures GoalStep(pass, g, Lookup(before, g), Lookup(after, g))
  {
    var current := map h | h in before :: before[h].secs;
    assert g in ToSet(plan.cancel) <==> g in current && InScope(g, synced + gone) && Lookup(wanted, g) != Some(current[g]);
    assert g in Added(plan.add) <==> g in wanted && InScope(g, synced + gone) && Lookup(current, g) != Some(wanted[g]);
    if ParseJobGoal(g).Some? {
      var tenant := ParseJobGoal(g).value.0;
      assert Lookup(wanted, g) == if tenant in synced then WantedAt(pass, g) else None;
      assert g in before && pass.Vanished(tenant) ==> tenant in gone;
      assert tenant in gone ==> pass.Vanished(tenant);
    }
  }

  // ---- runs ----

  /** The job map after one more pass in which the scheduler accepts everything. */
  ghost predicate Passed(pass: Pass, before: map<Goal, Job>, after: map<Goal, Job>) {
    pass.refused == {} && forall g :: GoalStep(pass, g, Lookup(before, g), Lookup(after, g))
  }

  /** The job maps before and after each pass of a run that starts with none. */
  ghost predicate IsRun(passes: seq<Pass>, states: seq<map<Goal, Job>>) {
    && |states| == |passes| + 1
    && states[0] == map[]
    && forall k | 0 <= k < |passes| :: Passed(passes[k], states[k], states[k + 1])
  }

  /** The polls of a tenant at its last successful roster read, none once it leaves a successful discovery. */
  function Owed(passes: seq<Pass>, tenant: string): map<string, nat> {
    if |passes| == 0 then map[]
    else
      var last := passes[|passes| - 1];
      if last.Vanished(tenant) then map[]
      else if last.Synced(tenant) then Polled(last.rosters[tenant].rows)
      else Owed(passes[..|passes| - 1], tenant)
  }

  /** After any run, a tenant has exactly the jobs owed to it: each safe row id, at its interval. */
  lemma {:induction false} JobsAreOwed(passes: seq<Pass>, states: seq<map<Goal, Job>>, tenant: string, id: string)
    requires IsRun(passes, states) && DrivableTenant(tenant) && SafeSegment(id)
    ensures var goal := JobGoal(tenant, id); var jobs := states[|passes|];
      && (goal in jobs <==> id in Owed(passes, tenant))
      && (goal in jobs ==> jobs[goal].secs == Owed(passes, tenant)[id])
  {
    GoalRoundTrip(tenant, id);
    if |passes| > 0 {
      var n := |passes| - 1;
      assert IsRun(passes[..n], states[..|passes|]) by {
        assert forall k | 0 <= k < n :: passes[..n][k] == passes[k] && states[..|passes|][k] == states[k];
      }
      JobsAreOwed(passes[..n], states[..|passes|], tenant, id);
      assert Passed(passes[n], states[n], states[n + 1]);
      assert GoalStep(passes[n], JobGoal(tenant, id), Lookup(states[n], JobGoal(tenant, id)), Lookup(states[n + 1], JobGoal(tenant, id)));
    }
  }

  /** Nothing but goals is ever registered. */
  lemma {:induction false} OnlyGoalsAreJobs(passes: seq<Pass>, states: seq<map<Goal, Job>>, goal: Goal)
    requires IsRun(passes, states) && goal in states[|passes|]
    ensures ParseJobGoal(goal).Some?
  {
    if |passes| > 0 {
      var n := |passes| - 1;
      assert Passed(passes[n], states[n], states[n + 1]);
      assert GoalStep(passes[n], goal, Lookup(states[n], goal), Lookup(states[n + 1], goal));
      if ParseJobGoal(goal).None? {
        assert IsRun(passes[..n], states[..|passes|]) by {
          assert forall k | 0 <= k < n :: passes[..n][k] == passes[k] && states[..|passes|][k] == states[k];
        }
        OnlyGoalsAreJobs(passes[..n], states[..|passes|], goal);
      }
    }
  }

  /** A pass that neither reads a tenant's roster nor misses it in its discovery keeps its very jobs. */
  lemma UnreadIsUntouched(pass: Pass, before: map<Goal, Job>, after: map<Goal, Job>, tenant: string, id: string)
    requires forall g :: GoalStep(pass, g, Lookup(before, g), Lookup(after, g))
    requires DrivableTenant(tenant) && SafeSegment(id) && !pass.Synced(tenant) && !pass.Vanished(tenant)
    ensures Lookup(after, JobGoal(tenant, id)) == Lookup(before, JobGoal(tenant, id))
  {
    GoalRoundTrip(tenant, id);
    var goal := JobGoal(tenant, id);
    assert GoalStep(pass, goal, Lookup(before, goal), Lookup(after, goal));
  }

  // ---- the same, told by the rosters alone ----

  /** The pass found the tenant and read its roster. */
  predicate Reads(pass: Pass, tenant: string) {
    pass.discovery.Some? && tenant in pass.discovery.value && tenant in pass.rosters && (tenant == "" || SafeSegment(tenant))
  }

  /** The pass found tenants, and not this one. */
  predicate Misses(pass: Pass, tenant: string) {
    pass.discovery.Some? && tenant !in pass.discovery.value
  }

  /** Row `i` is the last one with this id that is enabled and has a forge, and asks for this interval. */
  ghost predicate AsksAt(rows: seq<Row>, id: string, secs: nat, i: nat) {
    && i < |rows| && rows[i].id == id && rows[i].enabled && rows[i].hasForge && rows[i].pollSecs == secs
    && forall j | i < j < |rows| && rows[j].id == id :: !(rows[j].enabled && rows[j].hasForge)
  }

  ghost predicate AsksFor(rows: seq<Row>, id: string, secs: nat) {
    exists i: nat :: AsksAt(rows, id, secs, i)
  }

  lemma {:induction false} PolledMeans(rows: seq<Row>, id: string, secs: nat)
    ensures Lookup(Polled(rows), id) == Some(secs) <==> AsksFor(rows, id, secs)
  {
    if |rows| > 0 {
      var front, last := rows[..|rows| - 1], rows[|rows| - 1];
      PolledMeans(front, id, secs);
      if last.id == id && last.enabled && last.hasForge {
        assert last.pollSecs == secs ==> AsksAt(rows, id, secs, |rows| - 1);
      } else {
        forall i: nat
          ensures AsksAt(rows, id, secs, i) <==> AsksAt(front, id, secs, i)
        {
          assert i < |front| ==> front[i] == rows[i];
          assert forall j | i < j < |front| :: front[j] == rows[j];
        }
      }
    }
  }

  /** There is a job for the goal, at this interval. */
  predicate HasJob(jobs: map<Goal, Job>, goal: Goal, secs: nat) {
    goal in jobs && jobs[goal].secs == secs
  }

  /**
   * After a pass that read a tenant's roster, the tenant has a job for a safe id that the scheduler takes if and
   * only if the roster asks for it, and at that interval; after one that missed the tenant it has none.
   */
  lemma PassMeans(pass: Pass, before: map<Goal, Job>, after: map<Goal, Job>, tenant: string, id: string, secs: nat)
    requires forall g :: GoalStep(pass, g, Lookup(before, g), Lookup(after, g))
    requires DrivableTenant(tenant) && SafeSegment(id)
    ensures Reads(pass, tenant) && JobGoal(tenant, id) !in pass.refused ==>
      (HasJob(after, JobGoal(tenant, id), secs) <==> AsksFor(pass.rosters[tenant].rows, id, secs))
    ensures Misses(pass, tenant) ==> JobGoal(tenant, id) !in after
    ensures !Reads(pass, tenant) && !Misses(pass, tenant) ==> Lookup(after, JobGoal(tenant, id)) == Lookup(before, JobGoal(tenant, id))
  {
    hide Polled, AsksFor, SafeSegment;
    GoalRoundTrip(tenant, id);
    var goal := JobGoal(tenant, id);
    assert GoalStep(pass, goal, Lookup(before, goal), Lookup(after, goal));
    if Reads(pass, tenant) {
      PolledMeans(pass.rosters[tenant].rows, id, secs);
    }
  }

  /** Pass `k` is the last one that read the tenant's roster or missed the tenant. */
  ghost predicate Decides(passes: seq<Pass>, tenant: string, k: nat) {
    && k < |passes| && (Reads(passes[k], tenant) || Misses(passes[k], tenant))
    && forall j | k < j < |passes| :: !Reads(passes[j], tenant) && !Misses(passes[j], tenant)
  }

  /** The roster that was read last, and not followed by a discovery without the tenant, asks for this interval. */
  ghost predicate LastAsksFor(passes: seq<Pass>, tenant: string, id: string, secs: nat) {
    exists k: nat :: Decides(passes, tenant, k) && Reads(passes[k], tenant) && AsksFor(passes[k].rosters[tenant].rows, id, secs)
  }

  lemma DecidedBefore(passes: seq<Pass>, tenant: string, id: string, secs: nat)
    requires |passes| > 0
    requires var last := passes[|passes| - 1]; !Reads(last, tenant) && !Misses(last, tenant)
    ensures LastAsksFor(passes, tenant, id, secs) <==> LastAsksFor(passes[..|passes| - 1], tenant, id, secs)
  {
    hide Reads, Misses, AsksFor;
    var front := passes[..|passes| - 1];
    forall k: nat
      ensures Decides(passes, tenant, k) <==> Decides(front, tenant, k)
    {
      if Decides(front, tenant, k) {
        assert forall j | k < j < |front| :: front[j] == passes[j];
        assert front[k] == passes[k];
      }
      if Decides(passes, tenant, k) {
        assert k < |front| && front[k] == passes[k];
      }
    }
  }

  /**
   * After any run of passes in which the scheduler accepts everything, a tenant has a job for a safe id, at an
   * interval, exactly when the roster that was read last asks for it.
   */
  lemma {:induction false} JobsFollowRosters(passes: seq<Pass>, states: seq<map<Goal, Job>>, tenant: string, id: string, secs: nat)
    requires IsRun(passes, states) && DrivableTenant(tenant) && SafeSegment(id)
    ensures HasJob(states[|passes|], JobGoal(tenant, id), secs) <==> LastAsksFor(passes, tenant, id, secs)
  {
    hide GoalStep, AsksFor, SafeSegment;
    if |passes| > 0 {
      var n := |passes| - 1;
      RunBegins(passes, states);
      JobsFollowRosters(passes[..n], states[..|passes|], tenant, id, secs);
      assert Passed(passes[n], states[n], states[n + 1]);
      PassMeans(passes[n], states[n], states[n + 1], tenant, id, secs);
      if Reads(passes[n], tenant) || Misses(passes[n], tenant) {
        assert Decides(passes, tenant, n);
      } else {
        DecidedBefore(passes, tenant, id, secs);
      }
    }
  }

  lemma RunBegins(passes: seq<Pass>, states: seq<map<Goal, Job>>)
    requires IsRun(passes, states) && |passes| > 0
    ensures IsRun(passes[..|passes| - 1], states[..|passes|])
  {
    hide GoalStep;
    var n := |passes| - 1;
    assert forall k | 0 <= k < n :: passes[..n][k] == passes[k] && states[..|passes|][k] == states[k];
  }
}
