/** The pure rules of the task tree: the transition table and the parent rollup. */
module CampaignRules {
  import opened Outcomes

  datatype TaskState =
    | Draft | AwaitingApproval | Ready | Decomposing | Decomposed | Claimed | Running
    | InReview | Blocked | Done | Failed | Cancelled | Superseded
  {
    predicate IsTerminal() {
      Done? || Cancelled? || Superseded?
    }

    predicate IsLeased() {
      Claimed? || Running?
    }

    /** Counted by the rollup: neither superseded nor cancelled. */
    predicate IsLive() {
      !Superseded? && !Cancelled?
    }

    /** The states that hold a parent back until a human acts. */
    predicate IsStuck() {
      Failed? || Blocked?
    }
  }

  /** `Interior` is the source's `Task`: a node that is neither the root nor a leaf. */
  datatype TaskKind = Objective | Interior | Leaf

  datatype ActorClass = User | Model | Planner | Driver | Worker | Reaper | Poller | RollupPass

  predicate Allowed(from: TaskState, to: TaskState, kind: TaskKind, actor: ActorClass) {
    if from == to then false else
    match (from, to)
    case (_, Superseded) => !from.IsTerminal() && !kind.Objective? && actor.User?
    case (Draft, Ready) => kind.Objective? && actor.User?
    case (Draft, Cancelled) => kind.Objective? && actor.User?
    case (AwaitingApproval, Ready) => actor.User?
    case (AwaitingApproval, Cancelled) => actor.User?
    case (Ready, Decomposing) => !kind.Leaf? && actor.Planner?
    case (Ready, Claimed) => kind.Leaf? && actor.Driver?
    case (Ready, Blocked) => actor.Planner? || (!kind.Objective? && actor.RollupPass?)
    case (Ready, Cancelled) => actor.User?
    case (Decomposing, Ready) => !kind.Leaf? && (actor.Planner? || actor.Reaper?)
    case (Decomposing, Decomposed) => !kind.Leaf? && actor.Planner?
    case (Decomposing, AwaitingApproval) => !kind.Leaf? && actor.Planner?
    case (Decomposing, Blocked) => !kind.Leaf? && actor.Planner?
    case (Decomposing, Cancelled) => actor.User?
    case (Decomposed, Done) => !kind.Leaf? && actor.RollupPass?
    case (Decomposed, Blocked) => !kind.Leaf? && actor.RollupPass?
    case (Decomposed, Decomposing) => !kind.Leaf? && actor.User?
    case (Decomposed, Cancelled) => actor.User?
    case (Claimed, Running) => kind.Leaf? && actor.Worker?
    case (Claimed, Ready) => kind.Leaf? && actor.Reaper?
    case (Claimed, Cancelled) => kind.Leaf? && actor.User?
    case (Running, InReview) => kind.Leaf? && actor.Worker?
    case (Running, Failed) => kind.Leaf? && actor.Worker?
    case (Running, Ready) => kind.Leaf? && actor.Reaper?
    case (Running, Cancelled) => kind.Leaf? && actor.User?
    case (InReview, Done) => kind.Leaf? && actor.Poller?
    case (InReview, Failed) => kind.Leaf? && actor.Poller?
    case (InReview, Cancelled) => kind.Leaf? && actor.User?
    case (Blocked, Ready) => !kind.Objective? && actor.User?
    case (Blocked, Decomposing) => !kind.Leaf? && actor.User?
    case (Blocked, Cancelled) => actor.User?
    case (Blocked, Decomposed) => !kind.Leaf? && actor.RollupPass?
    case (Blocked, Done) => !kind.Leaf? && actor.RollupPass?
    case (Failed, Ready) => kind.Leaf? && actor.User?
    case (Failed, Cancelled) => kind.Leaf? && actor.User?
    case _ => false
  }

  predicate AnyLive(children: seq<TaskState>) {
    exists c | c in children :: c.IsLive()
  }

  predicate AllLiveDone(children: seq<TaskState>) {
    forall c | c in children :: c.IsLive() ==> c.Done?
  }

  predicate AnyStuck(children: seq<TaskState>) {
    exists c | c in children :: c.IsStuck()
  }

  /** The state that a `decomposed` or `blocked` parent should be in. */
  function RollupTarget(parent: TaskState, children: seq<TaskState>): TaskState {
    if !AnyLive(children) then (if Cancelled in children then Blocked else parent)
    else if AllLiveDone(children) then Done
    else if AnyStuck(children) then Blocked
    else Decomposed
  }

  /** The parent's new state over every child's state; `None` when it stays as it is. */
  function Rollup(parent: TaskState, children: seq<TaskState>): Option<TaskState> {
    if !parent.Decomposed? && !parent.Blocked? then None
    else if RollupTarget(parent, children) == parent then None
    else Some(RollupTarget(parent, children))
  }

  /** Whatever the rollup proposes, the table allows the rollup pass to write on an inner node. */
  lemma RollupIsAllowed(parent: TaskState, children: seq<TaskState>, kind: TaskKind)
    requires Rollup(parent, children).Some?
    requires !kind.Leaf?
    ensures Allowed(parent, Rollup(parent, children).value, kind, RollupPass)
    ensures !Rollup(parent, children).value.IsLeased() && !Rollup(parent, children).value.Decomposing?
  {
  }

  /** The rollup is stable on its own result: one application reaches the fixpoint. */
  lemma RollupIsIdempotent(parent: TaskState, children: seq<TaskState>)
    requires Rollup(parent, children).Some?
    ensures Rollup(Rollup(parent, children).value, children) == None
  {
  }

  /**
   * Where a parent ends, state by state. Done: some child is neither superseded nor cancelled, and all such
   * are done. Blocked: a child is failed or blocked, or none of them counts and one was cancelled. With no
   * child that counts and none cancelled it stays where it is.
   */
  lemma RollupMeans(parent: TaskState, children: seq<TaskState>)
    ensures var ends := if Rollup(parent, children).Some? then Rollup(parent, children).value else parent;
      if parent.Decomposed? || parent.Blocked? then
        && (ends.Done? <==>
              && (exists c | c in children :: !c.Superseded? && !c.Cancelled?)
              && forall c | c in children && !c.Superseded? && !c.Cancelled? :: c.Done?)
        && (ends.Blocked? <==>
              || (exists c | c in children :: c.Failed? || c.Blocked?)
              || ((forall c | c in children :: c.Superseded? || c.Cancelled?) && (Cancelled in children || parent.Blocked?)))
        && (ends.Done? || ends.Blocked? || ends.Decomposed?)
      else ends == parent
  {
  }

  // ---- the table read by actor ----

  /** A driver only claims, and a model writes nothing. */
  lemma DriverMoves(from: TaskState, to: TaskState, kind: TaskKind)
    ensures !Allowed(from, to, kind, Model)
    ensures Allowed(from, to, kind, Driver) <==> from.Ready? && to.Claimed? && kind.Leaf?
  {
  }

  /** A worker only runs a claimed leaf and finishes a running one. */
  lemma WorkerMoves(from: TaskState, to: TaskState, kind: TaskKind)
    ensures Allowed(from, to, kind, Worker) <==>
      kind.Leaf? && ((from.Claimed? && to.Running?) || (from.Running? && (to.InReview? || to.Failed?)))
  {
  }

  /** A poller only settles reviews. */
  lemma PollerMoves(from: TaskState, to: TaskState, kind: TaskKind)
    ensures Allowed(from, to, kind, Poller) <==> kind.Leaf? && from.InReview? && (to.Done? || to.Failed?)
  {
  }

  /** A reaper only returns work and plans to ready. */
  lemma ReaperMoves(from: TaskState, to: TaskState, kind: TaskKind)
    ensures Allowed(from, to, kind, Reaper) <==>
      to.Ready? && if kind.Leaf? then from.Claimed? || from.Running? else from.Decomposing?
  {
  }

  lemma PlannerMoves(from: TaskState, to: TaskState, kind: TaskKind)
    ensures Allowed(from, to, kind, Planner) <==>
      || (from.Ready? && to.Blocked?)
      || (!kind.Leaf? && from.Ready? && to.Decomposing?)
      || (!kind.Leaf? && from.Decomposing? && (to.Ready? || to.Decomposed? || to.AwaitingApproval? || to.Blocked?))
  {
  }

  lemma RollupMoves(from: TaskState, to: TaskState, kind: TaskKind)
    ensures Allowed(from, to, kind, RollupPass) <==>
      || (!kind.Objective? && from.Ready? && to.Blocked?)
      || (!kind.Leaf? && from.Decomposed? && (to.Done? || to.Blocked?))
      || (!kind.Leaf? && from.Blocked? && (to.Done? || to.Decomposed?))
  {
  }

  /** A user supersedes, cancels, releases, retries and replans. */
  lemma UserMoves(from: TaskState, to: TaskState, kind: TaskKind)
    ensures Allowed(from, to, kind, User) <==>
      match to
      case Superseded => !kind.Objective? && !from.Done? && !from.Cancelled? && !from.Superseded?
      case Cancelled =>
        || from.AwaitingApproval? || from.Ready? || from.Decomposing? || from.Decomposed? || from.Blocked?
        || (kind.Objective? && from.Draft?)
        || (kind.Leaf? && (from.Claimed? || from.Running? || from.InReview? || from.Failed?))
      case Ready =>
        || from.AwaitingApproval?
        || (kind.Objective? && from.Draft?)
        || (!kind.Objective? && from.Blocked?)
        || (kind.Leaf? && from.Failed?)
      case Decomposing => !kind.Leaf? && (from.Decomposed? || from.Blocked?)
      case _ => false
  {
  }

  /** Nobody moves a row out of a terminal state. */
  lemma TerminalIsFinal(from: TaskState, to: TaskState, kind: TaskKind, actor: ActorClass)
    requires from.Done? || from.Cancelled? || from.Superseded?
    ensures !Allowed(from, to, kind, actor)
  {
  }
}
