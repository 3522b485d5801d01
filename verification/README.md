# Campaign store, config store, code graph, references and fleet sync

A Dafny model of five parts of the repository, with the guarantees that their comments and design notes
make, and the exact conditions where a guarantee has exceptions.

- **Campaign store** (`Campaign*.dfy`, `LockSystem.dfy`). A tree of rows, an event log and an attempts table,
  driven by 21 transactional protocols. `CampaignRules` and `CampaignTables` hold the transition table, the
  rollup rule and the statements; `CampaignProtocols` gives each protocol as a function from tables to the
  committed tables or an error; `CampaignStore` is the imperative form, a transaction on its own copy of the
  tables, proved equal to that function. `CampaignPass`, `CampaignEndings` and `CampaignSweeps` write out what each
  committed call leaves in the tables, row by row, and `CampaignVerdicts` which call is refused with which error;
  the methods of the store promise these. `CampaignInvariants`, `CampaignSafety`, `CampaignEffects`, `CampaignRuns`,
  `CampaignRollup`, `CampaignConduct` and `CampaignLaws` carry the results over single steps and whole runs;
  `CampaignWalk` and `CampaignExample` walk to reachable stores that show the exceptions.
  `LockSystem`, `CampaignLocks`, `CampaignOrder` and `CampaignCoverage` model the same protocols as interleaved
  sequences of row locks. `CampaignKeys` is the text form of attempt keys.
  `CampaignDeps` and `CampaignBatches` treat the dependency check of a batch and tie it to the claim statement.
- **Config store** (`Config*.dfy`, `Segments.dfy`). One contract over insertion-ordered cards
  (`ConfigCards`), what a batch leaves under each key and in which order (`ConfigMeaning`), four stores that meet
  it with positions of their own (`ConfigRows`, `ConfigBackends`), when the two ways of judging a swap are
  interchangeable (`ConfigSwaps`), and the soft cap (`ConfigCap`).
- **Code graph** (`Reachability.dfy`, `CodeGraph.dfy`, `CallPaths.dfy`, `ImportPaths.dfy`). Bounded
  reachability, the induced subgraph, bounded simple call paths, shortest import paths.
- **Go extractor** (`GoPriority.dfy`, `GoEdges.dfy`). Ranks around the changed files and the bounded set of
  best edges.
- **References and fleet sync** (`DisplayRefs.dfy`, `CampaignRefs.dfy`, `FleetSync.dfy`). Letter paths and the
  way back to a row; the forge-poll jobs over passes.
- `Outcomes.dfy`, `Collections.dfy` and `Texts.dfy` hold what several of these share: results and guards, lists
  without repeats, the order of texts.

## Reading the model

- A row's id is its position in its table. `depth` and `ordinal` are read off the path. Text columns are left out.
- `checked` in a request stands for its own text, size and screening checks and for the batch check of
  `CampaignDeps`; `DepsInBatch` states the range part of that check where the tables need it.
- The words of the store's contracts are defined over rows and parent links alone: `Becomes` is a row after a state
  write, `RolledUp` where a row stands over its children, `PassedAbove` what the rollup does to the line of ancestors
  above a row, `EndsLease` how long a lease lasts, `Refusal` the first guard that fails.
- The store object carries every invariant: `PgCampaigns.Valid` holds at every commit, and each protocol requires
  and keeps it.
- An attempt key is its four words, which is the same as its text (`CampaignKeys`). A caller may send any key; the
  store mints one for a claim.
- `busy` is the set of rows locked by others, which a skip-locked statement passes over. Clocks, lease lengths,
  schedulers that refuse, rosters that fail and files that outgrow a size are parameters.
- In the lock model a transaction's requests are fixed when it begins and otherwise arbitrary, so every answer
  that its reads could give on the way is covered. A call that commits on the given tables asks for its whole
  program; one that they refuse asks for the locks that it takes before its refusal, which may be none.

## Where the code and its own notes differ

- `docs/design/campaigns/02-transactions.md:122-124` says that rows are always taken in ascending
  `(depth, path)` order. That holds except when a call that commits fails a leaf, or closes its review unmerged,
  and a ready dependent has a smaller ordinal (`AscendsExactly`, `FailureStepsBack`). What holds for every protocol is that
  each further row or its parent is already held (`ProgramsAreOrderly`).
- The same note says that two transactions cannot deadlock. That is so for the locks that the protocols take
  themselves (`ProtocolsNeverDeadlock`). The deferred foreign key from a new row to its campaign's root takes one
  more lock at a decomposition's commit, outside that order. With it, exactly the decompositions of nodes below the
  root that commit can deadlock (`DeadlocksExactly`), each with a plan close of its node that would commit as well
  (`PlanCloseMeetsSplit`); `ForeignKeyDeadlocks` is a reachable case.
- A minted key can meet a planner's key, since both are 64 hex digits; the claim is then refused as already applied
  (`ClaimIsExact`, and `PlannerTakesMintedKey` for a reachable store). It never meets another claim's.
- The rollup keeps every node at its fixpoint except after the calls named by `CampaignRollup.Disturbs`: a
  replan of the only stuck child of a blocked parent, blocking a planned node or a ready dependent whose
  children are live and unstuck, and decomposing a node with an already stuck child. `CampaignExample` has a
  reachable store for each.
- `crates/agent-cli/src/campaign_cli.rs:852-853` calls every label usable as a reference. The `#id` fallback is
  not (`HashIsRefused`).
- The four config stores are interchangeable only for `Harmless` batches
  (`crates/agent-config-store/src/lib.rs:122-124` says so of all); `HarmfulBatches` has two that are not.

## Model

| member | source | states |
|---|---|---|
| `CampaignRules.RollupIsAllowed` | crates/agent-core/src/campaign/rules.rs:296-409 | whatever the rollup proposes for a non-leaf parent, the transition table lets the rollup pass write, and it is never a leased state or `decomposing` |
| `CampaignRules.RollupIsIdempotent` | crates/agent-core/src/campaign/rules.rs:365-409 | the rollup is stable on its own result: applied again to the state it proposed, it proposes nothing |
| `CampaignRules.RollupMeans` | crates/agent-core/src/campaign/rules.rs:365-409 | a decomposed or blocked parent ends done exactly when some child counts (neither superseded nor cancelled) and all that count are done; blocked exactly when one is failed or blocked, or none counts and one was cancelled or the parent was blocked already; and otherwise decomposed |
| `CampaignRules.WorkerMoves` | crates/agent-core/src/campaign/rules.rs:296-352 | a worker may run a claimed leaf and send a running one to review or to failed, and nothing else; `DriverMoves`, `PollerMoves`, `ReaperMoves`, `PlannerMoves` and `RollupMoves` read off the other actors |
| `CampaignRules.UserMoves` | crates/agent-core/src/campaign/rules.rs:296-352 | exactly what a user may supersede, cancel, release, retry and replan, kind by kind |
| `CampaignStore.Tx.Transition` | crates/agent-campaign/src/postgres.rs:619-660 | the one state write: refused without a trace unless the table allows it; otherwise version up by one, lease cleared unless the new state is leased, and one event with the new version |
| `CampaignStore.Tx.CloseWork` | crates/agent-campaign/src/postgres.rs:719-743 | every pending `work` attempt of the row, or only the owner's, gets the outcome; no other attempt changes |
| `CampaignStore.Tx.BlockDependents` | crates/agent-campaign/src/postgres.rs:744-763 | the sibling loop equals the specification function over the children by ordinal |
| `CampaignStore.Tx.RollupFrom` | crates/agent-campaign/src/postgres.rs:765-783 | the upward loop with its early stop: the row it starts at, and each ancestor whose child on the way has moved, stands where its children put it (done, blocked or decomposed, told over rows and parent links); it is written only if its state moves; every other row is as it was |
| `CampaignStore.PgCampaigns.Create` | crates/agent-campaign/src/postgres.rs:835-883 | a user gets a root row at version 1 with the policy given, or the defaults, and its creation event; anyone else, a failed check or a policy out of range is refused and nothing changes |
| `CampaignStore.PgCampaigns.PlanStart` | crates/agent-campaign/src/postgres.rs:885-935 | a ready inner node is planned, unless its attempts or the campaign's tokens have reached the limits: then it is blocked and the ancestors follow |
| `CampaignStore.PgCampaigns.Decompose` | crates/agent-campaign/src/postgres.rs:937-1081 | inserting the children bare and then writing their dependencies gives the rows complete: numbered on from the old ones, waiting for a user when the policy gates their depth and otherwise ready; every guard fails in the source's order and leaves the store as it was |
| `CampaignStore.PgCampaigns.MarkLeaf` | crates/agent-campaign/src/postgres.rs:1083-1150 | a planned node without children is a leaf, waiting for a user when the policy gates its depth and otherwise ready, with its attempt recorded |
| `CampaignStore.PgCampaigns.PlanClose` | crates/agent-campaign/src/postgres.rs:1152-1264 | a question waits for a user, a rejection or a finding blocks the node, an error counts one attempt and returns it to ready until the limit blocks it; a blocked node is followed by the rollup |
| `CampaignStore.PgCampaigns.Claim` | crates/agent-campaign/src/postgres.rs:1266-1325 | the first free leaves of the queue are leased to the owner, each with its event and its pending attempt; a request of 60 to 86400 seconds ends the lease exactly so much later, one outside that range at the nearer end; a taken key refuses the whole claim |
| `CampaignStore.PgCampaigns.Heartbeat` | crates/agent-campaign/src/postgres.rs:1327-1343 | the lease of its owner ends the requested seconds from now, held to 60 and 86400, and nothing else changes; an owner that does not hold the leaf is refused with a lost lease |
| `CampaignStore.PgCampaigns.Reap` | crates/agent-campaign/src/postgres.rs:1345-1405 | every row whose lease ended before now, and that nobody has locked, is ready and free again, with an event, in ascending order, and its work closed as lost; no other row or attempt changes; it is never refused |
| `CampaignStore.PgCampaigns.ReapDecomposing` | crates/agent-campaign/src/postgres.rs:1407-1453 | every plan last touched longer ago than the bound, held to 60 and 86400 seconds, is ready again unless somebody has it locked; no other row moves |
| `CampaignStore.PgCampaigns.Start` | crates/agent-campaign/src/postgres.rs:1455-1472 | the lessee's claimed leaf is running, by one event of the worker, and its lease stays; owner first, then state: an owner that does not hold the leaf is refused with a lost lease |
| `CampaignStore.PgCampaigns.Complete` | crates/agent-campaign/src/postgres.rs:1474-1515 | the lessee's running leaf is in review and free, and of all attempts exactly the one that its latest claim opened is closed; any other owner is refused with a lost lease |
| `CampaignStore.PgCampaigns.Fail` | crates/agent-campaign/src/postgres.rs:1517-1553 | the lessee's running leaf is failed, exactly the attempt of its latest claim is closed, exactly the ready rows that depend on it are blocked, and the ancestors follow |
| `CampaignStore.PgCampaigns.ResolveReview` | crates/agent-campaign/src/postgres.rs:1555-1574 | a merged leaf is done and its ancestors follow; an unmerged one is failed, exactly the ready rows that depend on it are blocked, and then the ancestors follow; each by the poller's event |
| `CampaignStore.PgCampaigns.ReviewNote` | crates/agent-campaign/src/postgres.rs:1576-1597 | an event without a state change; the awaiting mark is written once |
| `CampaignStore.PgCampaigns.Approve` | crates/agent-campaign/src/postgres.rs:1599-1629 | a gated node is ready; a leaf in review only gets the user's event; each under the version check |
| `CampaignStore.PgCampaigns.ApproveChildren` | crates/agent-campaign/src/postgres.rs:1631-1646 | exactly the waiting children are ready, each with an event, in ordinal order |
| `CampaignStore.PgCampaigns.Answer` | crates/agent-campaign/src/postgres.rs:1648-1680 | a waiting node is made ready under the version check |
| `CampaignStore.PgCampaigns.Retry` | crates/agent-campaign/src/postgres.rs:1682-1705 | a failed leaf, or a blocked node below the root, is ready and its ancestors follow |
| `CampaignStore.PgCampaigns.UpdatePolicy` | crates/agent-campaign/src/postgres.rs:1707-1744 | a version bump and an event on the root, with the state unchanged; a policy out of range is refused |
| `CampaignStore.PgCampaigns.Cancel` | crates/agent-campaign/src/postgres.rs:1746-1784 | exactly the live rows of the subtree are cancelled, in `(depth, path)` order, and their work closed as lost, then the ancestors follow; the whole subtree ends terminal and unleased; any refusal undoes all of it |
| `CampaignStore.PgCampaigns.Replan` | crates/agent-campaign/src/postgres.rs:1786-1842 | exactly the live descendants are superseded by the node, in `(depth, path)` order, and their work closed as lost, the node is planned afresh with its counter at zero, no other row moved; any refusal undoes all of it |
| `CampaignVerdicts.VerdictIsExact` | crates/agent-campaign/src/postgres.rs:833-1842 | every call commits exactly when none of its guards, written out over the tables in the order in which they are checked, fails, and otherwise its error is that of the first one that does; nothing fails later |
| `CampaignVerdicts.FitsAgree` | crates/agent-campaign/src/postgres.rs:949-1010 | the caps of a decomposition are sizes of sets of rows within the ranges of the campaign's policy |
| `CampaignVerdicts.ValidMeans` | crates/agent-core/src/campaign/policy.rs:98-141 | the ranges a policy must be in, no level gated twice |
| `CampaignProtocols.ClampLease` | crates/agent-core/src/campaign/rules.rs:412-415 | a number of seconds from 60 to 86400 is itself, a smaller one 60, a larger one 86400 |
| `CampaignLaws.ClaimHoldsOffReaps` | crates/agent-campaign/src/postgres.rs:1266-1405 | a row claimed for 60 to 86400 seconds is leased for exactly so long, and no reap until then takes it |
| `CampaignLaws.HeartbeatHoldsOffReaps` | crates/agent-campaign/src/postgres.rs:1327-1405 | and a heartbeat holds the reaper off anew, from when it was sent |
| `CampaignLaws.SpendingIsReported` | crates/agent-campaign/src/postgres/sql.rs:80-85 | after any run the tokens that a campaign has spent are the sum of those that the committed planning calls of the run reported for it |
| `CampaignLaws.TokensAreCounted` | crates/agent-campaign/src/postgres/sql.rs:80-85 | one committed call adds to a campaign's spent tokens exactly what it reports |
| `CampaignEndings.ClaimableIsFree` | crates/agent-campaign/src/postgres/sql.rs:209-231 | the count of done dependencies that the claim statement compares matches exactly when they are distinct and all done |
| `CampaignEndings.CandidatesAreFirst` | crates/agent-campaign/src/postgres/sql.rs:209-231 | the rows picked are the first of the queue, by campaign and then path, of the free leaves that nobody has locked |
| `CampaignEndings.BeforeMeans` | crates/agent-campaign/src/postgres/sql.rs:209-231 | the order of paths: at the first difference the smaller ordinal, and a path before those that extend it |
| `CampaignSafety.ApplyKeeps` | crates/agent-campaign/src/postgres.rs:833-1842 | every one of the 21 protocols, from any tables satisfying the invariants (replayable log, lease ledger, numbered tree, sibling dependencies, valid policies), commits tables that satisfy them |
| `CampaignSafety.DecomposeKeeps` | crates/agent-campaign/src/postgres.rs:949-1058 | a decomposition that passes its caps keeps every invariant, child numbering after earlier replans included |
| `CampaignSafety.BatchKeeps` | crates/agent-campaign/src/postgres.rs:975-1030 | once the caps are checked nothing in the batch can fail: the ordinals stay within the path grammar, the parent's transition is allowed |
| `CampaignSafety.RollupKeeps` | crates/agent-campaign/src/postgres.rs:765-783 | the rollup pass is never refused and keeps every invariant |
| `CampaignSafety.CandidatesAreClaimable` | crates/agent-campaign/src/postgres/sql.rs:209-231 | the claim takes the first claimable rows that nobody has locked, each once, in `(campaign, path)` order, and leaves one out only when the limit is met by rows that do not come after it |
| `CampaignInvariants.ClaimKeeps` | crates/agent-campaign/src/postgres.rs:1285-1325 | a claim of a ready leaf goes through if and only if no planner used the very key that the store mints for it, and then keeps every invariant |
| `CampaignSafety.ClaimIsExact` | crates/agent-campaign/src/postgres.rs:1285-1325 | a whole claim commits if and only if no planner used any of the keys that the store mints for its rows |
| `CampaignExample.PlannerTakesMintedKey` | crates/agent-campaign/src/postgres.rs:1285-1325 | a reachable store in which a planner sends the key that the store mints next: the claim commits before that call and ends in already-applied after it |
| `CampaignKeys.TextReadsBack` | crates/agent-core/src/campaign/mod.rs:340-363 | every four words have a key text of their own, and it is one that a caller may send |
| `CampaignKeys.TextSpells` | crates/agent-core/src/campaign/mod.rs:340-363 | a key text spells its four words in their order, sixteen digits each, the highest digit first |
| `CampaignKeys.AcceptedIsMintable` | crates/agent-core/src/campaign/mod.rs:340-363 | every key text that a caller may send is the text of exactly one quadruple of words |
| `CampaignInvariants.ReleaseKeeps` | crates/agent-campaign/src/postgres.rs:719-743 | a write that ends a lease keeps the ledger when it closes the work it leaves behind |
| `CampaignEffects.ApplyEffects` | crates/agent-campaign/src/postgres.rs:833-1842 | what any committed protocol can do to any row and to both logs: rows only move forward in version, logs only grow, the owner changes only to none or by a claim that picked the row |
| `CampaignRuns.EventsReplayToRows` | crates/agent-campaign/src/postgres.rs:573-660 | in every reachable store a row's events form one unbroken chain from its creation to its current state and version; the version rises at every state change and never falls |
| `CampaignConduct.LogTellsWho` | crates/agent-core/src/campaign/rules.rs:296-352 | in every reachable store each logged move is one that the table allows its actor: done only by a poller or the rollup, out of approval only by a user, claimed only by a driver, failed only by the worker or the poller, and nothing out of a terminal state |
| `CampaignRuns.LeaseLedger` | crates/agent-campaign/src/postgres.rs:718-742 | a claimed or running row is a leaf with exactly one pending `work` attempt, its owner's and its newest; any other row has none |
| `CampaignRuns.FinishClosesOwnClaim` | crates/agent-campaign/src/postgres.rs:1474-1553 | a successful `complete` or `fail` is its owner's and changes exactly one attempt: the pending one that the leaf's latest claim opened for that owner |
| `CampaignRuns.FencedUntilNewClaim` | crates/agent-campaign/src/postgres.rs:1390-1396 | over any run in which an owner that does not hold a leaf is given no new claim on it, that owner's start, complete, fail and heartbeat are refused throughout |
| `CampaignRuns.ReapTakesBack` | crates/agent-campaign/src/postgres.rs:1345-1405 | the reaper clears the owner of exactly the expired rows that nobody has locked |
| `CampaignRuns.CancelEndsSubtree` | crates/agent-campaign/src/postgres.rs:1746-1784 | after `cancel` every row of the subtree is terminal and unleased, and rows that were terminal are untouched |
| `CampaignRuns.ReplanSupersedes` | crates/agent-campaign/src/postgres.rs:1786-1842 | `replan` supersedes exactly the live descendants, returns the node to planning with no attempt counted, and moves no other row |
| `CampaignRuns.DependentsAreBlocked` | crates/agent-campaign/src/postgres.rs:744-763 | scanning the siblings blocks exactly the ready rows, anywhere in the table, that depend on the leaf |
| `CampaignRuns.FailureBlocksDependents` | crates/agent-campaign/src/postgres.rs:1517-1574 | right after a leaf fails or its review is closed unmerged, no ready row depends on it |
| `CampaignRuns.StepKeepsPlansBounded` | crates/agent-campaign/src/postgres.rs:895-931 | with the policies fixed, a node in planning has its counter strictly below the limit and no node has it above, after every protocol |
| `CampaignRuns.PlanningIsFinite` | crates/agent-campaign/src/postgres.rs:1227-1260 | with the policies fixed, a run without a replan of the node records exactly as many error closes as the counter rises, hence at most what the limit leaves, retries and stale releases included |
| `CampaignRuns.PlanningIsFiniteAnyPolicy` | crates/agent-campaign/src/postgres.rs:1227-1260 | over any run without a replan of the node, policy updates included, the counter rises by exactly the error closes recorded and never passes ten |
| `CampaignRuns.RunStaysWithinTen` | crates/agent-campaign/src/postgres.rs:895-931 | in every run from the empty store no counter passes ten and a node in planning is below it, whatever the policies |
| `CampaignRuns.ChildNumbering` | crates/agent-campaign/src/postgres.rs:949-1040 | a node's children carry exactly the ordinals 1 to their number, at most 8, and a leaf has none |
| `CampaignRuns.PathsAreUnique` | crates/agent-campaign/src/postgres.rs:998-1020 | no two rows share a path |
| `CampaignRollup.RollupSettles` | crates/agent-campaign/src/postgres.rs:765-783 | if every ancestor above the starting node was at its rollup fixpoint, the pass ends with that node and all its ancestors at theirs, although it stops at the first unchanged one |
| `CampaignRollup.RollupStaysOnChain` | crates/agent-campaign/src/postgres.rs:765-783 | the pass writes the starting node and its ancestors and no other row |
| `CampaignRollup.RollupIsExact` | crates/agent-campaign/src/postgres.rs:833-1842 | from a store in which every node is at its fixpoint, a committed protocol keeps that if and only if it is not one of the calls named by `Disturbs`, which can be read off before the call |
| `CampaignRollup.ReplanSettles` | crates/agent-campaign/src/postgres.rs:1786-1842 | `replan` keeps every node at its fixpoint unless the node is the only stuck child of a blocked parent: that parent is not rolled up |
| `CampaignExample.ReplanStrandsParent` | crates/agent-campaign/src/postgres.rs:1786-1842 | a reachable store, every node at its fixpoint, in which a `replan` commits and leaves the parent blocked with nothing stuck below it |
| `CampaignExample.RejectionStrandsNode` | crates/agent-campaign/src/postgres.rs:1185-1202 | a reachable store in which a rejected plan blocks a node whose child has work left |
| `CampaignExample.SplitStrandsNode` | crates/agent-campaign/src/postgres.rs:937-1081 | a reachable store in which a node is decomposed over a child that is stuck |
| `CampaignExample.FailureStrandsDependent` | crates/agent-campaign/src/postgres.rs:1517-1553 | a reachable store in which a failure blocks a ready dependent whose child has work left |
| `CampaignPass.PassEnds` | crates/agent-campaign/src/postgres.rs:765-783 | the rollup pass told over rows: which ancestors it reaches, where each of them ends, and that it changes nothing else |
| `CampaignPass.SettledMeans` | crates/agent-core/src/campaign/rules.rs:365-409 | every node of a store is at its fixpoint exactly when every row stands where its children put it, told over rows and parent links |
| `CampaignPass.RowsKeepStanding` | crates/agent-campaign/src/postgres.rs:833-1842 | from a store whose rows all stand where their children put them, a committed call leads to such a store exactly when it is not one of those that `Disturbs` names |
| `CampaignDeps.CheckDeps` | crates/agent-core/src/campaign/mod.rs:194-233 | the batch check accepts exactly the batches whose members can all be done in some order, each meeting the claim condition at its turn; so a repeated, foreign, self or cyclic dependency is refused |
| `CampaignBatches.SameCount` | crates/agent-campaign/src/postgres/sql.rs:217-224 | for a member of an inserted batch the claim statement's count of done dependencies is the batch check's |
| `CampaignLocks.ProgramsAreOrderly` | crates/agent-campaign/src/postgres.rs:479-517 | for every protocol over any sound tables, each lock after the first is on a row that is held or whose parent is held; a foreign-key lock only comes last |
| `CampaignCoverage.EveryWriteIsLocked` | crates/agent-campaign/src/postgres.rs:479-517 | of the rows that are there before a call that waits for its locks, a commit changes only rows that the call has locked: its target, its dependents or subtree, and every ancestor that the rollup reaches |
| `CampaignCoverage.NothingElseIsLocked` | crates/agent-campaign/src/postgres.rs:479-517 | a call asks for no row lock but on its target, the target's ancestors, and the dependents, waiting children or subtree that it may have to write |
| `CampaignCoverage.JudgedUnderLock` | crates/agent-campaign/src/postgres.rs:479-660 | a call refused for the version, the state or the owner of its row holds that row by then, except `plan_start`, `cancel` and a heartbeat |
| `LockSystem.InterleavingsAreOk` | crates/agent-campaign/src/postgres.rs:479-517 | in every interleaving no two transactions hold clashing locks, and what a waiting one holds hangs together under its oldest lock |
| `LockSystem.WaitsDeepen` | crates/agent-campaign/src/postgres.rs:22-24 | a transaction that asks in order waits only for one whose oldest lock is strictly deeper than its own |
| `CampaignLocks.ProtocolsNeverDeadlock` | crates/agent-campaign/src/postgres.rs:22-24 | in every interleaving of the protocols' own row locks no group of transactions is deadlocked |
| `CampaignLocks.ProtocolsProgress` | crates/agent-campaign/src/postgres.rs:22-24 | while any transaction waits, some transaction can take its next lock or end |
| `CampaignLocks.OnlyDeepDecompositionsStray` | crates/agent-campaign/migrations/0001_campaigns.sql:59 | with the deferred foreign key to the campaign's root, a call asks outside what it holds if and only if it is a decomposition of a node below the root that commits; a refused call asks for what it had locked by then |
| `CampaignLocks.StraightNeverDeadlock` | crates/agent-campaign/migrations/0001_campaigns.sql:59 | with that key in force, calls of which none asks outside what it holds never deadlock |
| `CampaignLocks.DeadlocksExactly` | crates/agent-campaign/migrations/0001_campaigns.sql:59 | with that key in force, a call over sound tables can deadlock with calls that ask in order if and only if it is the decomposition of a node below the root and it commits |
| `CampaignLocks.CancelMeetsSplit` | crates/agent-campaign/migrations/0001_campaigns.sql:59 | every such decomposition deadlocks with a cancel of its own node that would commit as well, in an interleaving of the two that is given |
| `CampaignLocks.PlanCloseMeetsSplit` | crates/agent-campaign/src/postgres.rs:1152-1172 | every such decomposition has a call to deadlock with, on the same tables and committing as well: a second close of the same plan |
| `CampaignLocks.RefusedOnItsOwnRow` | crates/agent-campaign/src/postgres.rs:1517-1646 | a failure, a review or an approval of children that is refused was refused on its own row: past those guards nothing fails, so no sibling and no child was locked |
| `CampaignLocks.DeadlockNeedsForeignKey` | crates/agent-campaign/migrations/0001_campaigns.sql:59 | every deadlock has in it a transaction that waits, at its commit, for the key's lock |
| `CampaignLocks.ForeignKeyDeadlocks` | crates/agent-campaign/migrations/0001_campaigns.sql:59 | a reachable store in which the decomposition and the cancel would each commit alone, and deadlock together |
| `CampaignOrder.AscendsExactly` | docs/design/campaigns/02-transactions.md:122-124 | a call asks for new rows in `(depth, path)` order unless it commits the failure of a leaf, or an unmerged close of its review, with a ready dependent of a smaller ordinal; and then it does not |
| `CampaignOrder.FailureStepsBack` | crates/agent-campaign/src/postgres.rs:744-763 | a reachable store in which a failure that commits locks a dependent with a smaller ordinal after the leaf |
| `ConfigBackends.CheckBatch` | crates/agent-config-store/src/lib.rs:186-221 | the loop reports the first error of the batch, a card's tenant counting as known once ensured earlier in it |
| `ConfigBackends.MemoryBackend.Apply` | crates/agent-config-store/src/lib.rs:505-576 | accepted, the contents are the writes applied in order; rejected, nothing changes; all swaps are judged on the state before the batch |
| `ConfigBackends.MemoryBackend.Get` | crates/agent-config-store/src/lib.rs:454-462 | the card's blob in the contents, if any |
| `ConfigBackends.MemoryBackend.List` | crates/agent-config-store/src/lib.rs:464-477 | gathering by key and sorting on the position gives the tenant's blobs in insertion order |
| `ConfigBackends.MemoryBackend.Count` | crates/agent-config-store/src/lib.rs:479-488 | the number of blobs listed |
| `ConfigBackends.MemoryBackend.Tenants` | crates/agent-config-store/src/lib.rs:490-503 | the tenants with a card in the collection, each once, in ascending order |
| `Texts.OneListing` | crates/agent-config-store/src/lib.rs:490-503 | a set has one ascending listing, so two stores with the same cards list the same tenants |
| `ConfigBackends.FileBackend.Apply` | crates/agent-config-store/src/file.rs:161-246 | judged as the memory form is, and then refused if and only if the bundle that the batch makes, a function of the old bundle and the batch, is over the cap; refused, the file is as it was |
| `ConfigBackends.FileBackend.Get` | crates/agent-config-store/src/file.rs:121-128 | the card's blob in the contents, if any |
| `ConfigBackends.FileBackend.List` | crates/agent-config-store/src/file.rs:130-139 | the filtered rows sorted on the position are the tenant's blobs in insertion order |
| `ConfigBackends.FileBackend.Count` | crates/agent-config-store/src/file.rs:141-148 | the number of blobs listed |
| `ConfigBackends.FileBackend.Tenants` | crates/agent-config-store/src/file.rs:150-159 | the tenants with a card in the collection, each once, in ascending order |
| `ConfigBackends.SqliteBackend.Apply` | crates/agent-config-store/src/sqlite.rs:151-239 | each swap judged inside the transaction and positions from the largest plus one, the contents are the writes applied in order, or nothing changes |
| `ConfigBackends.SqliteBackend.List` | crates/agent-config-store/src/sqlite.rs:102-118 | the tenant's blobs in insertion order |
| `ConfigBackends.PgBackend.Apply` | crates/agent-config-store/src/postgres.rs:279-421 | the same with insert-or-conflict and replace-if-equal swaps and positions from a sequence that a rollback does not turn back |
| `ConfigBackends.PgBackend.List` | crates/agent-config-store/src/postgres.rs:217-231 | the tenant's blobs in insertion order |
| `ConfigBackends.RunBoth` | crates/agent-config-store/src/file.rs:161-246 | over any sequence of batches, up to the first whose bundle is over the cap, the memory and the file form give the same replies and hold the same cards in the same order; exactly that batch is refused for its size |
| `ConfigCards.RunsAreSound` | crates/agent-config-store/src/lib.rs:186-221 | in every run from the empty store each key has one card, no card is empty, and every card's tenant exists |
| `ConfigMeaning.WriteErrorMeans` | crates/agent-config-store/src/lib.rs:186-221 | what one write is refused for: a bad tenant, then a bad id, then an empty blob, then an unknown tenant |
| `ConfigMeaning.JudgedBeforeMeans` | crates/agent-config-store/src/lib.rs:505-576 | the first write with an error of its own ends the batch, else the first swap that misses in the cards before it, and else every write is carried out |
| `ConfigMeaning.JudgedWithinMeans` | crates/agent-config-store/src/sqlite.rs:151-239 | the same with the first swap that misses in what the writes before it leave |
| `ConfigMeaning.BatchLeaves` | crates/agent-config-store/src/lib.rs:537-576 | after a batch each key holds what the last write to it says, and what it held when none writes to it |
| `ConfigMeaning.CardsByBirth` | crates/agent-config-store/src/lib.rs:537-576 | after a batch the cards are in the order of their births: at their old place unless deleted, otherwise at the write that found nothing under the key |
| `ConfigMeaning.ListMeans` | crates/agent-config-store/src/lib.rs:464-477 | a listing is the blobs of exactly the tenant's cards of the collection, in the order of the cards |
| `ConfigSwaps.SameWhenUnshadowed` | crates/agent-config-store/src/sqlite.rs:206-234 | for a batch in which no swapped key is written earlier, judging swaps before the batch or inside the transaction gives the same result from any cards, errors included |
| `ConfigSwaps.InterchangeableIffHarmless` | crates/agent-config-store/src/lib.rs:511-536 | a batch has the same verdict and contents in all four stores, whatever they hold, if and only if it is `Harmless`, a condition on the batch alone |
| `ConfigSwaps.RejectedWithinOnly` | crates/agent-config-store/src/sqlite.rs:206-234 | for a batch with a satisfiable set of swaps one of which contradicts an earlier write of the batch, some store accepts it in memory and refuses it in the database |
| `ConfigSwaps.RejectedBeforeOnly` | crates/agent-config-store/src/lib.rs:511-536 | for a batch with a swap that relies on an earlier write and is not backed by an opening swap, some store refuses it in memory and accepts it in the database |
| `ConfigSwaps.HarmfulBatches` | crates/agent-config-store/src/sqlite.rs:206-234 | on the empty store, a batch that writes a card and then swaps it: expecting no card passes in memory only, expecting the card just written passes in the database only |
| `ConfigCap.Store.Put` | crates/agent-config-store/src/lib.rs:310-343 | one writer's put: a new id is refused exactly when the listing holds the cap, everything else goes to the backend |
| `ConfigCap.Store.Delete` | crates/agent-config-store/src/lib.rs:347-359 | removes the card and tells whether it was there |
| `ConfigCap.PutMeans` | crates/agent-config-store/src/lib.rs:310-343 | a bad tenant, a bad id, a full listing and an empty blob refuse a put in this order; otherwise the tenant exists and the card is in its old place, or last when it is new |
| `ConfigCap.OneWriterIsExact` | crates/agent-config-store/src/lib.rs:294-309 | no single writer's put takes a listing past the cap, and only the put's own listing grows, exactly when the card is new |
| `ConfigCap.OvershootIsBounded` | crates/agent-config-store/src/lib.rs:294-343 | with at most W puts in flight as separate read, count and apply calls, and any deletes between, ids present or about to land never number more than cap + W - 1 |
| `ConfigCap.BoundIsReached` | crates/agent-config-store/src/lib.rs:294-309 | from a store one short of its cap, W puts of new ids reach cap + W - 1 |
| `Reachability.LevelIsWalks` | crates/agent-ast/src/graph.rs:406-409 | the set of nodes within k steps is exactly the set of ends of walks of at most k edges from a seed |
| `Reachability.ForwardIsBackward` | crates/agent-ast/src/graph.rs:121-131 | with transposed indices, y is within k steps of x exactly when x is within k steps back from y |
| `CodeGraph.Graph.constructor` | crates/agent-ast/src/graph.rs:75-131 | the two indices hold exactly the document's first hundred thousand edges between kept symbols, each as often as listed, and are one relation read both ways; every kept id has the symbol that the document gives it last, name included |
| `CodeGraph.KeptEdgesCounts` | crates/agent-ast/src/graph.rs:121-131 | an edge between kept ids counts as often as the document lists it within its cap, and any other not at all |
| `CodeGraph.ClampHops` | crates/agent-ast/src/graph.rs:262-276 | one to eight steps are themselves, none is one, more are eight |
| `CodeGraph.KnownOnceInOrder` | crates/agent-ast/src/graph.rs:174-188 | the known ids are in the order in which they first appear |
| `CodeGraph.Graph.SymbolsFor` | crates/agent-ast/src/graph.rs:174-188 | the symbols of the known ids, each where it first appears: all of them, or the first 500 |
| `CodeGraph.Graph.Bfs` | crates/agent-ast/src/graph.rs:408-432 | only nodes within the clamped steps of the seeds, and all of them when fewer than 500 come back |
| `CodeGraph.Graph.Subgraph` | crates/agent-ast/src/graph.rs:436-456 | every recorded call edge between two visited ids as often as it was recorded, and no other; the nodes are the visited ids when those are known and at most 500 |
| `CodeGraph.Graph.Callers` | crates/agent-ast/src/graph.rs:265-269 | the nodes are the graph's own symbols; with fewer than 500 roots they lie within the clamped steps back, all of them below the cap, and the edges are those between nodes |
| `CodeGraph.Graph.Callees` | crates/agent-ast/src/graph.rs:272-276 | the same forward |
| `CallPaths.Search.Dfs` | crates/agent-ast/src/graph.rs:313-347 | the capped search with its mutable stack reports exactly the first paths, up to the cap, of the uncapped recursive enumeration, and restores the stack |
| `CallPaths.PathsAreExact` | crates/agent-ast/src/graph.rs:313-347 | the enumeration below a stack is exactly the simple call paths that extend it, end at a target, meet none on the way and have one to eight calls |
| `CallPaths.FindCallPaths` | crates/agent-ast/src/graph.rs:293-310 | `callchain` returns only such paths from a source to a target; below the cap all of them, and at the cap none that comes before one left out, source by source in the order of the successor lists; each once when sources and successor lists have no repeats |
| `CallPaths.SymbolPaths` | crates/agent-ast/src/graph.rs:293-347 | on a built graph the reported symbol paths are, symbol for symbol, the call paths of its callees index from a source to a target, none shortened by an unknown id; below the cap all of them |
| `CallPaths.BuildAndSearch` | crates/agent-ast/src/go.rs:173-180 | from the document to the answer: every reported path steps along kept edges of the document through symbols with the document's names, below the cap every such path is reported, and each once when the document records no call twice |
| `CallPaths.BuildAndWalk` | crates/agent-ast/src/go.rs:165-171 | `callers` and `callees` from the document to the answer: symbols with the document's names, ids that its calls lead to within the clamped steps, all of them below the cap, and its calls between them, each as often as listed |
| `ImportPaths.PkgMatchesMeans` | crates/agent-ast/src/graph.rs:384-402 | a spec matches a package when it is the package, or what is left of it after dropping leading segments at a slash |
| `ImportPaths.MatchPkg` | crates/agent-ast/src/graph.rs:384-402 | the spec itself when known, otherwise the only known package it matches, and nothing when there is none or several |
| `ImportPaths.Reconstruct` | crates/agent-ast/src/graph.rs:460-470 | following predecessors ends at the source and gives an import path as long as the destination's depth |
| `ImportPaths.ShortestPath` | crates/agent-ast/src/graph.rs:359-380 | a shortest import path, or nothing exactly when no path exists |
| `ImportPaths.DependencyPath` | crates/agent-ast/src/graph.rs:352-380 | once both specs name packages, a shortest path between them or, exactly when there is none, nothing |
| `GoPriority.Priority` | helpers/go-ast/main.go:279-357 | each function's rank is focus, hop one (a direct caller or callee by name), hop two (a caller of those) or the rest, and the order is by rank with walk order inside a rank, every function once |
| `GoPriority.Mark` | helpers/go-ast/main.go:312-321 | lowers exactly the worse ranks of the marked functions and returns those |
| `GoPriority.CallersOf` | helpers/go-ast/main.go:296-311 | exactly the functions whose bodies name one of the set |
| `GoEdges.EdgeSet.EvictWorse` | helpers/go-ast/main.go:455-465 | drops a worst-ranked edge if one ranks below r, and otherwise nothing, `dedup` in step with the buckets |
| `GoEdges.EdgeSet.Offer` | helpers/go-ast/main.go:424-441 | after any offers the set holds as many as fit, the best of them, with `dedup` equal to the kept keys; the cap is reported exactly when more than the cap have been offered |
| `GoEdges.EdgeSet.Emit` | helpers/go-ast/main.go:443-448 | the kept edges, each once, best rank first |
| `GoEdges.RankMeans` | helpers/go-ast/main.go:429-432 | a link ranks as the better ranked of its two ends |
| `GoEdges.WorkMeans` | helpers/go-ast/main.go:405-420 | the work of the whole scan is the number of pairs of an emitted caller and an emitted node that its body names |
| `GoEdges.ResolveEdges` | helpers/go-ast/main.go:395-449 | of the links that the scan reaches within its bound, a function of the emission, exactly min(cap, reached) edges are kept, none worse than a discarded one, ordered by rank; `truncated` is set if and only if it was, the whole scan costs more than the bound, or more links than the cap were reached; a scan within the bound reaches every link |
| `GoEdges.StoppedScan` | helpers/go-ast/main.go:413-420 | a scan that stops has examined exactly the links that its cost allows |
| `DisplayRefs.LettersLoop` | crates/agent-campaign/src/display.rs:66-78 | the loop with its reversed buffer computes bijective base 26 |
| `DisplayRefs.LettersAreListed` | crates/agent-campaign/src/display.rs:60-78 | the letters of the indices are all texts of capital letters, each once, shorter ones first and equally long ones in alphabetical order |
| `DisplayRefs.ParseLetter` | crates/agent-campaign/src/display.rs:84-93 | the index of one to four uppercase letters, and nothing for any other text |
| `DisplayRefs.ParseInvertsLetters` | crates/agent-campaign/src/display.rs:80-93 | reading an index's letters gives the index exactly when they are at most four |
| `DisplayRefs.LettersInvertParse` | crates/agent-campaign/src/display.rs:80-93 | every accepted text is the letters of its index |
| `DisplayRefs.Letters.Place` | crates/agent-campaign/src/display.rs:30-42 | a known root keeps its place, a new one takes the next while fewer than a thousand have one |
| `DisplayRefs.Letters.Render` | crates/agent-campaign/src/display.rs:45-52 | the letter path of the root's place and the ordinals, or nothing past the cap |
| `DisplayRefs.ParseRef` | crates/agent-cli/src/campaign_cli.rs:227-257 | the loop agrees with the grammar of ids and letter paths |
| `DisplayRefs.ParseInvertsText` | crates/agent-cli/src/campaign_cli.rs:227-257 | reading a reference's text gives the reference exactly when it is typable: an id of one to eighteen digits, or at most four letters and six ordinals from 1 to 8 |
| `DisplayRefs.TextInvertsParse` | crates/agent-cli/src/campaign_cli.rs:227-257 | every accepted text is the text of what it means, so no two texts mean the same reference |
| `DisplayRefs.HashIsRefused` | crates/agent-cli/src/campaign_cli.rs:853-861 | the fallback label is never accepted as a reference, whatever follows the hash |
| `CampaignRefs.ListingView.Label` | crates/agent-cli/src/campaign_cli.rs:854-861 | the letter path for a campaign among the first thousand, the hashed id for any other, and no letter moves |
| `CampaignRefs.Resolve` | crates/agent-cli/src/campaign_cli.rs:881-907 | in a sound store a letter path is the row whose path goes on from the root by its ordinals, a bare id its row, and each is found if and only if that row exists; otherwise the path is malformed or nothing is there |
| `CampaignRefs.LabelRoundTrip` | crates/agent-cli/src/campaign_cli.rs:837-907 | for every node of every sound store, reading and resolving its label gives that node if and only if its campaign is among the listing's first thousand |
| `CampaignRefs.IdRoundTrip` | crates/agent-cli/src/campaign_cli.rs:227-257 | a bare id of at most eighteen digits leads to its row |
| `FleetSync.GoalRoundTrip` | crates/agent-cli/src/fleet_sync.rs:45-56 | reading a goal back gives its tenant and row exactly when the row is a safe segment and the tenant is one or empty |
| `FleetSync.ParsedGoal` | crates/agent-cli/src/fleet_sync.rs:52-56 | whatever is read from a goal makes that goal again |
| `FleetSync.PlanJobs` | crates/agent-cli/src/fleet_sync.rs:75-97 | cancels exactly the jobs in scope not wanted as they are, adds exactly the wanted ones in scope not there as they are, both lists in ascending order of their goals |
| `FleetSync.PlanConverges` | crates/agent-cli/src/fleet_sync.rs:72-97 | applying a plan makes the jobs in scope the wanted ones, leaves all others alone, and leaves nothing more to plan |
| `FleetSync.Driver.SyncOnce` | crates/agent-cli/src/fleet_sync.rs:173-269 | for every goal: gone if its tenant left a successful discovery, untouched if the tenant was not read, otherwise as wanted, the very same job when its interval is unchanged; and likewise the sessions admitted and removed; a tenant whose roster was read has a job for a safe id that the scheduler takes exactly when the last enabled row with a forge under that id asks for it, at its interval; a job that is not the very one from before has an id that the pass has minted |
| `FleetSync.JobsAreOwed` | crates/agent-cli/src/fleet_sync.rs:168-269 | over any run in which scheduling succeeds, each tenant has exactly the jobs wanted at its last successful roster read, and none once it leaves a successful discovery |
| `FleetSync.JobsFollowRosters` | crates/agent-cli/src/fleet_sync.rs:168-269 | the same over the rosters alone: a job at an interval exactly when the roster read last, and not followed by a discovery without the tenant, asks for it |
| `Segments.SafeMeans` | crates/agent-core/src/identity.rs:26-34 | what a segment is refused for; no accepted one has a slash |
| `FleetSync.OnlyGoalsAreJobs` | crates/agent-cli/src/fleet_sync.rs:239-265 | nothing but readable goals is ever registered |
| `FleetSync.UnreadIsUntouched` | crates/agent-cli/src/fleet_sync.rs:173-202 | a pass that fails its discovery or a tenant's roster keeps that tenant's very jobs |

## Left out

- Reads and writes of one transaction interleaved with those of another: each protocol is one atomic step in
  the data model, and the lock model carries no data.
- Waits on unique keys (an attempt key, a tenant row being inserted) and the key-share locks that a child's
  insert takes on its own parent, which its transaction already holds for update.
- CampaignRuns.PlanningIsFinite: is stated under fixed policies, since `update_policy` can lower a limit below a
  counter that is already recorded; `PlanningIsFiniteAnyPolicy` has the bound that holds under any.
- CampaignKeys.TextReadsBack: words are of 64 bits; elsewhere ids, versions and clocks are unbounded integers.
- Whole-campaign caps over concurrent decompositions (`max_nodes`, plan tokens): each is a check at one step.
- CampaignDeps.CheckDeps: counts members as integers; the code's `u8` member numbers suffice for the at most
  eight children that its callers let through.
- CampaignStore.PgCampaigns.Create: the tenant row that the first insert ensures, titles, goals and other text.
- CampaignVerdicts.ValidMeans: a policy's worker-token and lease-length fields, which no protocol of the store reads,
  are left out with their ranges.
- Rows returned by the protocols are reads of the committed tables and are not modelled as results.
- ConfigBackends.FileBackend.Apply: the JSON text is represented by a size function; parsing, the temporary file
  and the rename are not modelled.
- ConfigBackends.PgBackend.Apply: one connection; row locks between connections are not modelled.
- Card codecs: a card is its bytes after sanitizing and validating.
- CodeGraph.Graph.constructor: JSON decoding; whether a file stays inside the repository is a field of the input.
  Symbol lookup by name, `implementations` and `interface_of` are filters over the same indices.
- FleetSync.JobsAreOwed: assumes that scheduling succeeds; `SyncOnce` states what a refusal leaves.
- Owner sessions shared by several tenants, repo indexing and the scheduler behind the jobs.
- GoEdges.ResolveEdges: edges carry positions in the emitted order, which is what the id map computes; parsing and
  walking Go files are not modelled.
- Prompt caching, token estimates, gRPC serving, terminal escaping, migrations and connection handling.
