/** Labels of campaign tasks in a listing, and the way back from a typed label to the task. */
module CampaignRefs {
  import opened Outcomes
  import opened CampaignTables
  import opened CampaignInvariants
  import opened CampaignRuns
  import D = DisplayRefs

  /** The listing's roots: distinct root rows. */
  ghost predicate Listing(db: Db, roots: seq<TaskId>) {
    && (forall i | 0 <= i < |roots| :: roots[i] < |db.tasks| && db.tasks[roots[i]].parent.None?)
    && forall i, j | 0 <= i < j < |roots| :: roots[i] != roots[j]
  }

  /** The place of a root that has a letter. */
  function PlaceOf(roots: seq<TaskId>, root: TaskId, n: nat): Option<nat>
    requires n <= |roots|
  {
    if n == 0 then None else if roots[n - 1] == root then Some(n - 1) else PlaceOf(roots, root, n - 1)
  }

  function Lettered(roots: seq<TaskId>): nat {
    if |roots| < D.MAX_ROOTS then |roots| else D.MAX_ROOTS
  }

  /** What `label` shows: the letter path, or the bare id after a hash for a task without one. */
  function LabelOf(db: Db, roots: seq<TaskId>, id: TaskId): string
    requires id < |db.tasks|
  {
    match PlaceOf(roots, db.tasks[id].campaign, Lettered(roots))
    case Some(i) => D.RefText(D.ByLetter(i, if |db.tasks[id].path| > 0 then db.tasks[id].path[1..] else []))
    case None => "#" + D.Decimal(id)
  }

  class ListingView {
    const roots: seq<TaskId>
    const letters: D.Letters

    /** Give every root its letter, in listing order. */
    constructor (roots: seq<TaskId>)
      requires forall i, j | 0 <= i < j < |roots| :: roots[i] != roots[j]
      ensures this.roots == roots && fresh(letters) && letters.Valid() && letters.roots == roots[..Lettered(roots)]
    {
      this.roots := roots;
      var l := new D.Letters();
      letters := l;
      new;
      for i := 0 to |roots|
        invariant letters == l && fresh(l) && l.Valid() && this.roots == roots
        invariant l.roots == roots[..if i < D.MAX_ROOTS then i else D.MAX_ROOTS]
      {
        assert forall k | 0 <= k < |l.roots| :: l.roots[k] == roots[k];
        var _ := l.Place(roots[i]);
      }
    }

    method Label(db: Db, id: TaskId) returns (text: string)
      requires id < |db.tasks| && |db.tasks[id].path| > 0 && db.tasks[id].path[0] == db.tasks[id].campaign
      requires letters.Valid() && letters.roots == roots[..Lettered(roots)]
      requires forall i, j | 0 <= i < j < |roots| :: roots[i] != roots[j]
      modifies letters
      ensures letters.roots == old(letters.roots)
      ensures text == LabelOf(db, roots, id)
    {
      var root := db.tasks[id].campaign;
      PlaceIs(roots, root, Lettered(roots));
      assert |roots| <= D.MAX_ROOTS ==> roots[..Lettered(roots)] == roots;
      if root in roots {
        var rendered := letters.Render(db.tasks[id].path);
        if rendered.Some? {
          return rendered.value;
        }
      }
      text := "#" + D.Decimal(id);
    }
  }

  lemma {:induction false} PlaceIs(roots: seq<TaskId>, root: TaskId, n: nat)
    requires n <= |roots| && forall i, j | 0 <= i < j < |roots| :: roots[i] != roots[j]
    ensures PlaceOf(roots, root, n).Some? <==> root in roots[..n]
    ensures forall i | 0 <= i < n && roots[i] == root :: PlaceOf(roots, root, n) == Some(i)
  {
    if n > 0 {
      PlaceIs(roots, root, n - 1);
      assert roots[..n] == roots[..n - 1] + [roots[n - 1]];
    }
  }

  // ---- resolving ----

  /** Walk down from a path, refusing what the path grammar refuses. */
  function Descend(path: seq<nat>, ordinals: seq<nat>): Result<seq<nat>, Error>
    decreases |ordinals|
  {
    if |ordinals| == 0 then Ok(path)
    else
      var next :- ChildPath(path, ordinals[0]);
      Descend(next, ordinals[1..])
  }

  /** The first of the rows with this path. */
  function FirstAt(db: Db, ids: seq<TaskId>, path: seq<nat>): Result<TaskId, Error> {
    if |ids| == 0 then Err(NotFound)
    else if ids[0] < |db.tasks| && db.tasks[ids[0]].path == path then Ok(ids[0])
    else FirstAt(db, ids[1..], path)
  }

  function ResolveOf(db: Db, roots: seq<TaskId>, r: D.Ref): Result<TaskId, Error> {
    match r
    case ById(id) => if id < |db.tasks| then Ok(id) else Err(NotFound)
    case ByLetter(idx, ordinals) =>
      if idx >= |roots| || roots[idx] >= |db.tasks| then Err(NotFound)
      else if ordinals == [] then Ok(roots[idx])
      else
        var path :- Descend(db.tasks[roots[idx]].path, ordinals);
        FirstAt(db, Subtree(db, roots[idx]), path)
  }

  /**
   * What a reference means in a store. A bare id is its row, if there is one. A letter and ordinals are the one
   * row whose path goes on from the campaign's root by these ordinals; without such a row the error is that the
   * path is none, when the grammar has no such ordinals or no room for them, and otherwise that nothing is there.
   */
  ghost predicate Means(db: Db, roots: seq<TaskId>, r: D.Ref, result: Result<TaskId, Error>) {
    match r
    case ById(task) => result == if task < |db.tasks| then Ok(task) else Err(NotFound)
    case ByLetter(idx, ordinals) =>
      && (forall id: TaskId :: result == Ok(id) <==> IsAt(db, roots, idx, ordinals, id))
      && (result.Err? ==>
            var spelled := |ordinals| <= 6 && forall k | 0 <= k < |ordinals| :: 1 <= ordinals[k] <= 8;
            result.error == if idx < |roots| && !spelled then Invalid else NotFound)
  }

  /** Row `id` is where the ordinals lead from the listing's root number `idx`. */
  predicate IsAt(db: Db, roots: seq<TaskId>, idx: nat, ordinals: seq<nat>, id: TaskId) {
    && idx < |roots| && roots[idx] < |db.tasks| && id < |db.tasks|
    && db.tasks[id].path == db.tasks[roots[idx]].path + ordinals
  }

  /** The walk down appends the ordinals, or finds one that the grammar refuses. */
  lemma {:induction false} DescendMeans(path: seq<nat>, ordinals: seq<nat>)
    requires |path| <= 7
    ensures Descend(path, ordinals)
      == if |path| + |ordinals| <= 7 && forall k | 0 <= k < |ordinals| :: 1 <= ordinals[k] <= 8
         then Ok(path + ordinals) else Err(Invalid)
    decreases |ordinals|
  {
    if |ordinals| == 0 {
      assert path + ordinals == path;
    } else if 1 <= ordinals[0] <= 8 && |path| <= 6 {
      DescendMeans(path + [ordinals[0]], ordinals[1..]);
      assert path + [ordinals[0]] + ordinals[1..] == path + ordinals;
      assert (forall k | 0 <= k < |ordinals| :: 1 <= ordinals[k] <= 8)
        <==> forall k | 0 <= k < |ordinals[1..]| :: 1 <= ordinals[1..][k] <= 8 by {
        assert forall k | 0 < k < |ordinals| :: ordinals[k] == ordinals[1..][k - 1];
      }
    }
  }

  lemma {:induction false} FirstAtMeans(db: Db, ids: seq<TaskId>, path: seq<nat>)
    ensures var found := FirstAt(db, ids, path);
      && (found.Ok? ==> found.value < |db.tasks| && db.tasks[found.value].path == path)
      && (found.Err? ==> found.error == NotFound && forall id | id in ids && id < |db.tasks| :: db.tasks[id].path != path)
  {
    if |ids| > 0 {
      FirstAtMeans(db, ids[1..], path);
    }
  }

  lemma RootStandsAlone(db: Db, roots: seq<TaskId>, idx: nat)
    requires Inv(db) && Listing(db, roots) && idx < |roots|
    ensures roots[idx] < |db.tasks| && db.tasks[roots[idx]].path == [roots[idx]]
  {
    assert NodeOk(db, roots[idx]);
  }

  /** In a sound store a reference resolves to what it means. */
  lemma ResolveMeans(db: Db, roots: seq<TaskId>, r: D.Ref)
    requires Inv(db) && Listing(db, roots)
    ensures Means(db, roots, r, ResolveOf(db, roots, r))
  {
    hide Inv, TreeOk, FirstAt, Descend, Subtree;
    SoundTree(db);
    if r.ByLetter? && r.idx < |roots| {
      var root := roots[r.idx];
      RootStandsAlone(db, roots, r.idx);
      if r.ordinals == [] {
        assert [root] + r.ordinals == [root];
        forall id: TaskId | IsAt(db, roots, r.idx, r.ordinals, id)
          ensures id == root
        {
          PathsAreUnique(db, id, root);
        }
      } else {
        DescendMeans([root], r.ordinals);
        var path := [root] + r.ordinals;
        FirstAtMeans(db, Subtree(db, root), path);
        SubtreeMembers(db, root);
        forall id: TaskId | IsAt(db, roots, r.idx, r.ordinals, id)
          ensures ResolveOf(db, roots, r) == Ok(id)
        {
          PathShape(db, id);
          assert [root] <= path;
          var found := FirstAt(db, Subtree(db, root), path);
          assert forall k | 0 <= k < |r.ordinals| :: r.ordinals[k] == db.tasks[id].path[k + 1];
          PathsAreUnique(db, id, found.value);
        }
      }
    }
  }

  method Resolve(db: Db, roots: seq<TaskId>, r: D.Ref) returns (id: Result<TaskId, Error>)
    ensures id == ResolveOf(db, roots, r)
    ensures Inv(db) && Listing(db, roots) ==> Means(db, roots, r, id)
  {
    hide Inv, Means, Listing;
    if Inv(db) && Listing(db, roots) {
      ResolveMeans(db, roots, r);
    }
    match r {
      case ById(task) =>
        return if task < |db.tasks| then Ok(task) else Err(NotFound);
      case ByLetter(idx, ordinals) =>
        if idx >= |roots| || roots[idx] >= |db.tasks| {
          return Err(NotFound);
        }
        if ordinals == [] {
          return Ok(roots[idx]);
        }
        var path := db.tasks[roots[idx]].path;
        for k := 0 to |ordinals|
          invariant Descend(path, ordinals[k..]) == Descend(db.tasks[roots[idx]].path, ordinals)
        {
          assert ordinals[k..][1..] == ordinals[k + 1..];
          path :- ChildPath(path, ordinals[k]);
        }
        var nodes := Subtree(db, roots[idx]);
        for k := 0 to |nodes|
          invariant FirstAt(db, nodes[k..], path) == FirstAt(db, nodes, path)
        {
          assert nodes[k..][1..] == nodes[k + 1..];
          if nodes[k] < |db.tasks| && db.tasks[nodes[k]].path == path {
            return Ok(nodes[k]);
          }
        }
        return Err(NotFound);
    }
  }

  // ---- the round trip ----

  /** A path is the root's id and then ordinals that the grammar allows. */
  lemma {:induction false} PathShape(db: Db, id: TaskId)
    requires TreeOk(db) && id < |db.tasks|
    ensures 1 <= |db.tasks[id].path| <= 7 && db.tasks[id].path[0] == db.tasks[id].campaign < |db.tasks|
    ensures db.tasks[db.tasks[id].campaign].path == [db.tasks[id].campaign]
    ensures forall k | 1 <= k < |db.tasks[id].path| :: 1 <= db.tasks[id].path[k] <= 8
  {
    assert NodeOk(db, id);
    if db.tasks[id].parent.Some? {
      var p := db.tasks[id].parent.value;
      PathShape(db, p);
      OrdinalInRange(db, id);
      var path := db.tasks[id].path;
      assert forall k | 0 <= k < |path| - 1 :: path[k] == db.tasks[p].path[k];
    }
  }

  lemma OrdinalInRange(db: Db, id: TaskId)
    requires TreeOk(db) && id < |db.tasks| && db.tasks[id].parent.Some?
    ensures 1 <= db.tasks[id].Ordinal() <= 8
  {
    var p := db.tasks[id].parent.value;
    assert NodeOk(db, p);
    KidIsListed(db.tasks, id, |db.tasks|);
    var a :| 0 <= a < |Kids(db, p)| && Kids(db, p)[a] == id;
    assert db.tasks[Kids(db, p)[a]].Ordinal() == a + 1;
  }

  lemma {:induction false} DescendFollows(path: seq<nat>, ordinals: seq<nat>)
    requires |path| + |ordinals| <= 7 && forall k | 0 <= k < |ordinals| :: 1 <= ordinals[k] <= 8
    ensures Descend(path, ordinals) == Ok(path + ordinals)
    decreases |ordinals|
  {
    if |ordinals| > 0 {
      DescendFollows(path + [ordinals[0]], ordinals[1..]);
      assert path + [ordinals[0]] + ordinals[1..] == path + ordinals;
    } else {
      assert path + ordinals == path;
    }
  }

  lemma {:induction false} FirstAtFinds(db: Db, ids: seq<TaskId>, id: TaskId)
    requires TreeOk(db) && id in ids && id < |db.tasks|
    ensures FirstAt(db, ids, db.tasks[id].path) == Ok(id)
  {
    if ids[0] < |db.tasks| && db.tasks[ids[0]].path == db.tasks[id].path {
      PathsAreUnique(db, ids[0], id);
    } else {
      FirstAtFinds(db, ids[1..], id);
    }
  }

  /** The letter path of any task leads back to it. */
  lemma LetterPathResolves(db: Db, roots: seq<TaskId>, id: TaskId, place: nat)
    requires TreeOk(db) && Listing(db, roots) && id < |db.tasks| && |db.tasks[id].path| > 0
    requires place < |roots| && roots[place] == db.tasks[id].campaign
    ensures ResolveOf(db, roots, D.ByLetter(place, db.tasks[id].path[1..])) == Ok(id)
  {
    PathShape(db, id);
    var root := roots[place];
    var path := db.tasks[id].path;
    if |path| == 1 {
      assert path == [root];
      PathsAreUnique(db, id, root);
    } else {
      assert [root] + path[1..] == path;
      DescendFollows([root], path[1..]);
      SubtreeMembers(db, root);
      assert [root] <= path;
      FirstAtFinds(db, Subtree(db, root), id);
    }
  }

  /**
   * For every task of every sound store: reading its label and resolving it gives that task, if and only if
   * its campaign is among the listing's first thousand. The label of any other task is no reference at all.
   */
  lemma LabelRoundTrip(db: Db, roots: seq<TaskId>, id: TaskId)
    requires Inv(db) && Listing(db, roots) && id < |db.tasks|
    ensures var r := D.ParseRefOf(LabelOf(db, roots, id));
      (r.Some? && ResolveOf(db, roots, r.value) == Ok(id)) <==> db.tasks[id].campaign in roots[..Lettered(roots)]
  {
    hide Inv, TreeOk, ResolveOf, D.ParseRefOf, D.Decimal;
    SoundTree(db);
    PathShape(db, id);
    var campaign := db.tasks[id].campaign;
    PlaceIs(roots, campaign, Lettered(roots));
    match PlaceOf(roots, campaign, Lettered(roots))
    case Some(i) =>
      var k :| 0 <= k < Lettered(roots) && roots[k] == campaign;
      D.ParseInvertsText(D.ByLetter(i, db.tasks[id].path[1..]));
      LetterPathResolves(db, roots, id, i);
    case None =>
      D.HashIsRefused(D.Decimal(id));
  }

  /** A bare id leads to its row. */
  lemma IdRoundTrip(db: Db, roots: seq<TaskId>, id: TaskId)
    requires 0 < id < |db.tasks| && |D.Decimal(id)| <= D.MAX_ID_DIGITS
    ensures D.ParseRefOf(D.Decimal(id)) == Some(D.ById(id)) && ResolveOf(db, roots, D.ById(id)) == Ok(id)
  {
    D.ParseInvertsText(D.ById(id));
  }
}
