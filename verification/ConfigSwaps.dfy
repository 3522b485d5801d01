/**
 * Judging a batch's swaps before it, or each inside the transaction: for which batches do callers see the
 * same store? Exactly for those that `Harmless` describes, which can be read off the batch alone.
 */
module ConfigSwaps {
  import opened Outcomes
  import opened Segments
  import opened ConfigCards

  predicate Touches(w: Write, key: Key) {
    !w.EnsureTenant? && w.key == key
  }

  ghost predicate Touched(ws: seq<Write>, key: Key) {
    exists j | 0 <= j < |ws| :: Touches(ws[j], key)
  }

  /** The value at `key` after one write that finds `v` there. */
  function Leaves(v: Option<Blob>, w: Write, key: Key): Option<Blob> {
    if !Touches(w, key) then v else if w.Delete? then None else Some(w.blob)
  }

  /** The value at `key` after the writes, when they find `v` there. */
  function Seen(v: Option<Blob>, ws: seq<Write>, key: Key): Option<Blob>
    decreases |ws|
  {
    if |ws| == 0 then v else Seen(Leaves(v, ws[0], key), ws[1..], key)
  }

  lemma OneIsSeen(db: Contents, w: Write, key: Key)
    requires DistinctKeys(db.cards)
    ensures DistinctKeys(ApplyOne(db, w).cards)
    ensures Lookup(ApplyOne(db, w).cards, key) == Leaves(Lookup(db.cards, key), w, key)
  {
    if w.Delete? {
      RemoveIsSeen(db.cards, w.key, key);
    } else if !w.EnsureTenant? {
      UpsertIsSeen(db.cards, w.key, w.blob, key);
    }
  }

  lemma LookupIs(cards: seq<Card>, i: nat)
    requires DistinctKeys(cards) && i < |cards|
    ensures Lookup(cards, cards[i].key) == Some(cards[i].blob)
  {
  }

  lemma UpsertIsSeen(cards: seq<Card>, at: Key, blob: Blob, key: Key)
    requires DistinctKeys(cards)
    ensures DistinctKeys(Upsert(cards, at, blob))
    ensures Lookup(Upsert(cards, at, blob), key) == if key == at then Some(blob) else Lookup(cards, key)
  {
    var after := Upsert(cards, at, blob);
    if key == at {
      var i := if Find(cards, at).Some? then Find(cards, at).value else |cards|;
      LookupIs(after, i);
    } else if Find(cards, key).Some? {
      assert after[Find(cards, key).value] == cards[Find(cards, key).value];
      LookupIs(after, Find(cards, key).value);
    }
  }

  lemma RemoveIsSeen(cards: seq<Card>, at: Key, key: Key)
    requires DistinctKeys(cards)
    ensures DistinctKeys(Remove(cards, at))
    ensures Lookup(Remove(cards, at), key) == if key == at then None else Lookup(cards, key)
  {
    if Find(cards, at).Some? {
      var i := Find(cards, at).value;
      var after := Remove(cards, at);
      assert forall k | 0 <= k < |after| :: after[k] == cards[if k < i then k else k + 1];
      if key != at && Find(cards, key).Some? {
        var j := Find(cards, key).value;
        assert after[if j < i then j else j - 1] == cards[j];
        LookupIs(after, if j < i then j else j - 1);
      }
    }
  }

  // ---- when each form accepts ----

  /** The swap at `i` finds what it expects when it is judged after the writes before it. */
  ghost predicate MetWithin(db: Contents, ws: seq<Write>, i: nat)
    requires i < |ws|
  {
    ws[i].Swap? ==> Seen(Lookup(db.cards, ws[i].key), ws[..i], ws[i].key) == ws[i].expected
  }

  ghost predicate MetBefore(db: Contents, ws: seq<Write>, i: nat)
    requires i < |ws|
  {
    ws[i].Swap? ==> Lookup(db.cards, ws[i].key) == ws[i].expected
  }

  lemma {:induction false} WithinAccepts(db: Contents, ws: seq<Write>)
    requires DistinctKeys(db.cards)
    ensures ApplyWithin(db, ws).Ok? <==> forall i | 0 <= i < |ws| :: MetWithin(db, ws, i)
    ensures ApplyWithin(db, ws).Ok? ==> ApplyWithin(db, ws).value == ApplyAll(db, ws)
    decreases |ws|
  {
    if |ws| > 0 {
      var db1 := ApplyOne(db, ws[0]);
      OneIsSeen(db, ws[0], if ws[0].EnsureTenant? then Key("", "", "") else ws[0].key);
      WithinAccepts(db1, ws[1..]);
      assert MetWithin(db, ws, 0) <==> !(ws[0].Swap? && Lookup(db.cards, ws[0].key) != ws[0].expected);
      forall i | 0 < i < |ws|
        ensures MetWithin(db, ws, i) <==> MetWithin(db1, ws[1..], i - 1)
      {
        assert ws[..i][1..] == ws[1..][..i - 1];
        if ws[i].Swap? {
          OneIsSeen(db, ws[0], ws[i].key);
        }
      }
      if forall i | 0 <= i < |ws| :: MetWithin(db, ws, i) {
        forall k | 0 <= k < |ws| - 1
          ensures MetWithin(db1, ws[1..], k)
        {
          assert MetWithin(db, ws, k + 1);
        }
      }
    }
  }

  lemma {:induction false} BeforeAccepts(db: Contents, ws: seq<Write>)
    ensures FirstMismatch(ws, db.cards).None? <==> forall i | 0 <= i < |ws| :: MetBefore(db, ws, i)
    decreases |ws|
  {
    if |ws| > 0 {
      BeforeAccepts(db, ws[1..]);
      assert MetBefore(db, ws, 0) <==> !(ws[0].Swap? && Lookup(db.cards, ws[0].key) != ws[0].expected);
      assert forall i | 0 < i < |ws| :: MetBefore(db, ws, i) <==> MetBefore(db, ws[1..], i - 1);
      if forall i | 0 <= i < |ws| :: MetBefore(db, ws, i) {
        forall k | 0 <= k < |ws| - 1
          ensures MetBefore(db, ws[1..], k)
        {
          assert MetBefore(db, ws, k + 1);
        }
      }
    }
  }

  // ---- no swapped key is written earlier: the same result, errors included ----

  ghost predicate Shadowed(ws: seq<Write>, i: nat)
    requires i < |ws|
  {
    ws[i].Swap? && Touched(ws[..i], ws[i].key)
  }

  /** From here on, the running cards read like `cards` wherever a swap looks. */
  lemma {:induction false} SameFromHere(db: Contents, cards: seq<Card>, ws: seq<Write>)
    requires DistinctKeys(db.cards)
    requires forall i | 0 <= i < |ws| :: !Shadowed(ws, i)
    requires forall i | 0 <= i < |ws| && ws[i].Swap? :: Lookup(db.cards, ws[i].key) == Lookup(cards, ws[i].key)
    ensures ApplyWithin(db, ws) ==
      match FirstMismatch(ws, cards) case Some(e) => Err(e) case None => Ok(ApplyAll(db, ws))
    decreases |ws|
  {
    if |ws| > 0 && !(ws[0].Swap? && Lookup(cards, ws[0].key) != ws[0].expected) {
      var db1 := ApplyOne(db, ws[0]);
      OneIsSeen(db, ws[0], if ws[0].EnsureTenant? then Key("", "", "") else ws[0].key);
      forall i | 0 <= i < |ws| - 1
        ensures !Shadowed(ws[1..], i)
        ensures ws[1..][i].Swap? ==> Lookup(db1.cards, ws[1..][i].key) == Lookup(cards, ws[1..][i].key)
      {
        assert !Shadowed(ws, i + 1);
        if ws[i + 1].Swap? {
          NotTouched(ws, i + 1);
          OneIsSeen(db, ws[0], ws[i + 1].key);
        }
      }
      SameFromHere(db1, cards, ws[1..]);
    }
  }

  lemma NotTouched(ws: seq<Write>, i: nat)
    requires 0 < i < |ws| && !ws[i].EnsureTenant? && !Touched(ws[..i], ws[i].key)
    ensures !Touches(ws[0], ws[i].key) && !Touched(ws[1..][..i - 1], ws[i].key)
  {
    assert !Touches(ws[..i][0], ws[i].key);
    var between := ws[1..][..i - 1];
    forall j | 0 <= j < |between|
      ensures !Touches(between[j], ws[i].key)
    {
      assert !Touches(ws[..i][j + 1], ws[i].key);
    }
  }

  /** When no swapped key is written earlier in the batch, all forms give the same result from any cards. */
  lemma SameWhenUnshadowed(db: Contents, ws: seq<Write>)
    requires DistinctKeys(db.cards)
    requires forall i | 0 <= i < |ws| :: !Shadowed(ws, i)
    ensures ApplyJudgedWithin(db, ws) == ApplyJudgedBefore(db, ws)
  {
    SameFromHere(db, db.cards, ws);
  }

  // ---- exactly which batches are the same from every store ----

  /** Same verdict, and the same contents when both accept. */
  ghost predicate SameOutcome(db: Contents, ws: seq<Write>) {
    match (ApplyJudgedBefore(db, ws), ApplyJudgedWithin(db, ws))
    case (Ok(a), Ok(b)) => a == b
    case (Err(_), Err(_)) => true
    case _ => false
  }

  ghost predicate Interchangeable(ws: seq<Write>) {
    forall db | Sound(db) :: SameOutcome(db, ws)
  }

  function TenantsIn(ws: seq<Write>): set<string> {
    set i | 0 <= i < |ws| :: if ws[i].EnsureTenant? then ws[i].tenant else ws[i].key.tenant
  }

  /** Some store lets the batch past its checks. */
  predicate WellFormed(ws: seq<Write>) {
    BatchError(ws, TenantsIn(ws)).None?
  }

  /** Every swap of a key written earlier expects what was last written there. */
  ghost predicate ShadowsMet(ws: seq<Write>) {
    forall i | 0 <= i < |ws| && Shadowed(ws, i) :: Seen(None, ws[..i], ws[i].key) == ws[i].expected
  }

  /** The first write of its key is a swap with the same expectation. */
  ghost predicate Backed(ws: seq<Write>, i: nat)
    requires i < |ws| && ws[i].Swap?
  {
    exists j | 0 <= j < |ws| :: ws[j].Swap? && !Shadowed(ws, j) && ws[j].key == ws[i].key && ws[j].expected == ws[i].expected
  }

  /** A first write of its key is a swap that expects an empty blob, which no store holds. */
  ghost predicate OpenNeverMet(ws: seq<Write>) {
    exists j | 0 <= j < |ws| :: ws[j].Swap? && !Shadowed(ws, j) && ws[j].expected == Some([])
  }

  /** No cards meet all the swaps at once. */
  ghost predicate Contradictory(ws: seq<Write>) {
    || (exists j | 0 <= j < |ws| :: ws[j].Swap? && ws[j].expected == Some([]))
    || (exists i, j | 0 <= i < |ws| && 0 <= j < |ws| ::
          ws[i].Swap? && ws[j].Swap? && ws[i].key == ws[j].key && ws[i].expected != ws[j].expected)
  }

  ghost predicate Harmless(ws: seq<Write>) {
    || !WellFormed(ws)
    || (ShadowsMet(ws) && (OpenNeverMet(ws) || forall i | 0 <= i < |ws| && Shadowed(ws, i) :: Backed(ws, i)))
    || (!ShadowsMet(ws) && Contradictory(ws))
  }

  // ---- harmless batches are interchangeable ----

  lemma {:induction false} SeenWhenTouched(v: Option<Blob>, ws: seq<Write>, key: Key)
    ensures Seen(v, ws, key) == if Touched(ws, key) then Seen(None, ws, key) else v
    decreases |ws|
  {
    if |ws| > 0 {
      SeenWhenTouched(Leaves(v, ws[0], key), ws[1..], key);
      SeenWhenTouched(Leaves(None, ws[0], key), ws[1..], key);
      TouchedFirstOrLater(ws, key);
    }
  }

  lemma TouchedFirstOrLater(ws: seq<Write>, key: Key)
    requires |ws| > 0
    ensures Touched(ws, key) <==> Touches(ws[0], key) || Touched(ws[1..], key)
  {
    if Touched(ws, key) {
      var j :| 0 <= j < |ws| && Touches(ws[j], key);
      if j > 0 {
        assert Touches(ws[1..][j - 1], key);
      }
    }
    if Touched(ws[1..], key) {
      var j :| 0 <= j < |ws| - 1 && Touches(ws[1..][j], key);
      assert Touches(ws[j + 1], key);
    }
  }

  /** Inside the transaction, a shadowed swap is judged on the batch alone, and any other on the store. */
  lemma WithinIsShadowsAndOpen(db: Contents, ws: seq<Write>)
    requires DistinctKeys(db.cards)
    ensures ApplyWithin(db, ws).Ok? <==>
      ShadowsMet(ws) && forall i | 0 <= i < |ws| && !Shadowed(ws, i) :: MetBefore(db, ws, i)
    ensures ApplyWithin(db, ws).Ok? ==> ApplyWithin(db, ws).value == ApplyAll(db, ws)
  {
    WithinAccepts(db, ws);
    forall i | 0 <= i < |ws|
      ensures MetWithin(db, ws, i) <==>
        if Shadowed(ws, i) then Seen(None, ws[..i], ws[i].key) == ws[i].expected else MetBefore(db, ws, i)
    {
      if ws[i].Swap? {
        SeenWhenTouched(Lookup(db.cards, ws[i].key), ws[..i], ws[i].key);
      }
    }
  }

  lemma NoEmptyBlob(db: Contents, key: Key)
    requires Sound(db)
    ensures Lookup(db.cards, key) != Some([])
  {
    if Find(db.cards, key).Some? {
      assert CardOk(db.cards[Find(db.cards, key).value], db.tenants);
    }
  }

  lemma HarmlessIsSame(db: Contents, ws: seq<Write>)
    requires Sound(db) && Harmless(ws)
    ensures SameOutcome(db, ws)
  {
    WithinIsShadowsAndOpen(db, ws);
    BeforeAccepts(db, ws);
    if !WellFormed(ws) {
      FormedHere(ws, db.tenants);
    } else if ShadowsMet(ws) {
      if OpenNeverMet(ws) {
        var j :| 0 <= j < |ws| && ws[j].Swap? && !Shadowed(ws, j) && ws[j].expected == Some([]);
        NoEmptyBlob(db, ws[j].key);
        assert !MetBefore(db, ws, j);
      } else if forall i | 0 <= i < |ws| && !Shadowed(ws, i) :: MetBefore(db, ws, i) {
        forall i | 0 <= i < |ws| && Shadowed(ws, i)
          ensures MetBefore(db, ws, i)
        {
          var j :| 0 <= j < |ws| && ws[j].Swap? && !Shadowed(ws, j) && ws[j].key == ws[i].key && ws[j].expected == ws[i].expected;
          assert MetBefore(db, ws, j);
        }
      }
    } else {
      ContradictionFails(db, ws);
    }
  }

  lemma ContradictionFails(db: Contents, ws: seq<Write>)
    requires Sound(db) && Contradictory(ws)
    ensures exists i | 0 <= i < |ws| :: !MetBefore(db, ws, i)
  {
    if exists j | 0 <= j < |ws| :: ws[j].Swap? && ws[j].expected == Some([]) {
      var j :| 0 <= j < |ws| && ws[j].Swap? && ws[j].expected == Some([]);
      NoEmptyBlob(db, ws[j].key);
      assert !MetBefore(db, ws, j);
    } else {
      var i, j :| 0 <= i < |ws| && 0 <= j < |ws|
        && ws[i].Swap? && ws[j].Swap? && ws[i].key == ws[j].key && ws[i].expected != ws[j].expected;
      assert !MetBefore(db, ws, i) || !MetBefore(db, ws, j);
    }
  }

  /** A batch that passes the checks of some store passes when all its tenants exist. */
  lemma {:induction false} ChecksPass(ws: seq<Write>, known: set<string>, all: set<string>)
    requires BatchError(ws, known).None? && TenantsIn(ws) <= all
    ensures BatchError(ws, all).None?
    decreases |ws|
  {
    if |ws| > 0 {
      var t := if ws[0].EnsureTenant? then ws[0].tenant else ws[0].key.tenant;
      assert t in TenantsIn(ws);
      assert TenantsIn(ws[1..]) <= all by {
        forall x | x in TenantsIn(ws[1..])
          ensures x in TenantsIn(ws)
        {
          var i :| 0 <= i < |ws| - 1 && x == if ws[1..][i].EnsureTenant? then ws[1..][i].tenant else ws[1..][i].key.tenant;
          assert ws[i + 1] == ws[1..][i];
        }
      }
      assert all + {t} == all;
      ChecksPass(ws[1..], if ws[0].EnsureTenant? then known + {ws[0].tenant} else known, all);
    }
  }

  lemma FormedHere(ws: seq<Write>, known: set<string>)
    ensures BatchError(ws, known).None? ==> WellFormed(ws)
  {
    if BatchError(ws, known).None? {
      ChecksPass(ws, known, TenantsIn(ws));
    }
  }

  // ---- any other batch tells them apart on some store ----

  datatype Want = Want(key: Key, value: Option<Blob>)

  ghost predicate Consistent(wants: seq<Want>) {
    forall i, j | 0 <= i < |wants| && 0 <= j < |wants| && wants[i].key == wants[j].key :: wants[i].value == wants[j].value
  }

  /** Cards that hold exactly what is wanted. */
  function Supply(wants: seq<Want>): seq<Card> {
    if |wants| == 0 then []
    else
      var w := wants[|wants| - 1];
      match w.value
      case Some(blob) => Upsert(Supply(wants[..|wants| - 1]), w.key, blob)
      case None => Supply(wants[..|wants| - 1])
  }

  ghost predicate Holdable(w: Want, tenants: set<string>) {
    w.value != Some([]) && w.key.tenant in tenants && SafeSegment(w.key.tenant) && SafeSegment(w.key.id)
  }

  ghost predicate Unasked(wants: seq<Want>, key: Key) {
    forall i | 0 <= i < |wants| :: wants[i].key != key
  }

  /** Sound cards that hold what is wanted, and nothing under any other key. */
  ghost predicate Meets(cards: seq<Card>, wants: seq<Want>, tenants: set<string>) {
    && Sound(Contents(tenants, cards))
    && (forall i | 0 <= i < |wants| :: Lookup(cards, wants[i].key) == wants[i].value)
    && forall key | Unasked(wants, key) :: Lookup(cards, key).None?
  }

  lemma {:induction false} SupplyMeets(wants: seq<Want>, tenants: set<string>)
    requires Consistent(wants) && forall i | 0 <= i < |wants| :: Holdable(wants[i], tenants)
    ensures Meets(Supply(wants), wants, tenants)
  {
    if |wants| > 0 {
      var front := wants[..|wants| - 1];
      var last := wants[|wants| - 1];
      assert forall i | 0 <= i < |front| :: front[i] == wants[i];
      assert Consistent(front) && wants == front + [last];
      hide Meets, Consistent, Holdable;
      SupplyMeets(front, tenants);
      if last.value.Some? {
        OneMoreCard(Supply(front), front, last, tenants);
      } else {
        OneMoreAbsence(Supply(front), front, last, tenants);
      }
    }
  }

  lemma OneMoreCard(cards: seq<Card>, front: seq<Want>, last: Want, tenants: set<string>)
    requires Meets(cards, front, tenants) && Consistent(front + [last]) && Holdable(last, tenants) && last.value.Some?
    ensures Meets(Upsert(cards, last.key, last.value.value), front + [last], tenants)
  {
    SupplyStaysSound(cards, last, tenants);
    hide Sound, Holdable;
    var wants, after := front + [last], Upsert(cards, last.key, last.value.value);
    assert wants[|front|] == last;
    forall i | 0 <= i < |wants|
      ensures Lookup(after, wants[i].key) == wants[i].value
    {
      UpsertIsSeen(cards, last.key, last.value.value, wants[i].key);
    }
    forall key | Unasked(wants, key)
      ensures Lookup(after, key).None?
    {
      assert forall i | 0 <= i < |front| :: wants[i] == front[i];
      UpsertIsSeen(cards, last.key, last.value.value, key);
    }
  }

  lemma OneMoreAbsence(cards: seq<Card>, front: seq<Want>, last: Want, tenants: set<string>)
    requires Meets(cards, front, tenants) && Consistent(front + [last]) && last.value.None?
    ensures Meets(cards, front + [last], tenants)
  {
    hide Sound, Lookup;
    var wants := front + [last];
    assert wants[|front|] == last && forall i | 0 <= i < |front| :: wants[i] == front[i];
    assert forall key | Unasked(wants, key) :: Unasked(front, key);
    if !Unasked(front, last.key) {
      var i :| 0 <= i < |front| && front[i].key == last.key;
      assert wants[i].value == wants[|front|].value;
    }
  }

  lemma SupplyStaysSound(cards: seq<Card>, w: Want, tenants: set<string>)
    requires Sound(Contents(tenants, cards)) && Holdable(w, tenants) && w.value.Some?
    ensures DistinctKeys(cards) && Sound(Contents(tenants, Upsert(cards, w.key, w.value.value)))
  {
    UpsertIsSeen(cards, w.key, w.value.value, w.key);
  }

  /** What the batch's swaps expect: all of them, or only those that no earlier write shadows. */
  ghost function Wants(ws: seq<Write>, n: nat, openOnly: bool): seq<Want>
    requires n <= |ws|
  {
    if n == 0 then []
    else
      Wants(ws, n - 1, openOnly)
        + (if ws[n - 1].Swap? && (openOnly ==> !Shadowed(ws, n - 1)) then [Want(ws[n - 1].key, ws[n - 1].expected)] else [])
  }

  ghost predicate Wanted(ws: seq<Write>, n: nat, openOnly: bool, w: Want)
    requires n <= |ws|
  {
    exists i | 0 <= i < n :: ws[i].Swap? && (openOnly ==> !Shadowed(ws, i)) && w == Want(ws[i].key, ws[i].expected)
  }

  lemma {:induction false} WantsAreWanted(ws: seq<Write>, n: nat, openOnly: bool)
    requires n <= |ws|
    ensures forall w :: w in Wants(ws, n, openOnly) <==> Wanted(ws, n, openOnly, w)
  {
    if n > 0 {
      WantsAreWanted(ws, n - 1, openOnly);
    }
  }

  /** The first write of a key is one write, so open swaps agree. */
  lemma OpenSwapsAgree(ws: seq<Write>, i: nat, j: nat)
    requires i < j < |ws| && ws[i].Swap? && ws[j].Swap? && ws[i].key == ws[j].key
    ensures Shadowed(ws, j)
  {
    assert Touches(ws[..j][i], ws[j].key);
  }

  lemma {:induction false} SwapIsHoldable(ws: seq<Write>, known: set<string>, i: nat)
    requires BatchError(ws, known).None? && i < |ws| && ws[i].Swap?
    ensures SafeSegment(ws[i].key.tenant) && SafeSegment(ws[i].key.id) && ws[i].key.tenant in TenantsIn(ws)
    decreases |ws|
  {
    if i > 0 {
      SwapIsHoldable(ws[1..], if ws[0].EnsureTenant? then known + {ws[0].tenant} else known, i - 1);
    }
  }

  /** A store in which every swap of the batch, or every open one, is met. */
  lemma WantedStore(ws: seq<Write>, openOnly: bool, extra: seq<Want>) returns (db: Contents)
    requires WellFormed(ws)
    requires Consistent(Wants(ws, |ws|, openOnly) + extra)
    requires forall w | w in Wants(ws, |ws|, openOnly) + extra :: w.value != Some([])
    requires forall w | w in extra :: exists i | 0 <= i < |ws| :: ws[i].Swap? && ws[i].key == w.key
    ensures Sound(db) && BatchError(ws, db.tenants).None?
    ensures forall i | 0 <= i < |ws| && (openOnly ==> !Shadowed(ws, i)) :: MetBefore(db, ws, i)
    ensures forall w | w in extra :: Lookup(db.cards, w.key) == w.value
  {
    var wants := Wants(ws, |ws|, openOnly) + extra;
    WantsAreWanted(ws, |ws|, openOnly);
    hide WellFormed, Wants, Consistent, Holdable, Meets, Sound, Shadowed, BatchError;
    WantsAreHoldable(ws, openOnly, extra);
    SupplyMeets(wants, TenantsIn(ws));
    db := Contents(TenantsIn(ws), Supply(wants));
    SupplyIsSound(wants, TenantsIn(ws));
    forall i | 0 <= i < |ws| && (openOnly ==> !Shadowed(ws, i))
      ensures MetBefore(db, ws, i)
    {
      if ws[i].Swap? {
        var w := Want(ws[i].key, ws[i].expected);
        assert Wanted(ws, |ws|, openOnly, w);
        SuppliedIs(wants, TenantsIn(ws), w);
      }
    }
    forall w | w in extra
      ensures Lookup(db.cards, w.key) == w.value
    {
      SuppliedIs(wants, TenantsIn(ws), w);
    }
  }

  lemma WantsAreHoldable(ws: seq<Write>, openOnly: bool, extra: seq<Want>)
    requires WellFormed(ws)
    requires forall w | w in Wants(ws, |ws|, openOnly) + extra :: w.value != Some([])
    requires forall w | w in extra :: exists i | 0 <= i < |ws| :: ws[i].Swap? && ws[i].key == w.key
    ensures BatchError(ws, TenantsIn(ws)).None?
    ensures var wants := Wants(ws, |ws|, openOnly) + extra; forall k | 0 <= k < |wants| :: Holdable(wants[k], TenantsIn(ws))
  {
    hide Wants, Shadowed;
    var wants := Wants(ws, |ws|, openOnly) + extra;
    WantsAreWanted(ws, |ws|, openOnly);
    forall k | 0 <= k < |wants|
      ensures Holdable(wants[k], TenantsIn(ws))
    {
      assert wants[k] in wants;
      var i :| 0 <= i < |ws| && ws[i].Swap? && ws[i].key == wants[k].key;
      SwapIsHoldable(ws, TenantsIn(ws), i);
    }
  }

  lemma SupplyIsSound(wants: seq<Want>, tenants: set<string>)
    requires Meets(Supply(wants), wants, tenants)
    ensures Sound(Contents(tenants, Supply(wants)))
  {
  }

  lemma SuppliedIs(wants: seq<Want>, tenants: set<string>, w: Want)
    requires Meets(Supply(wants), wants, tenants) && w in wants
    ensures Lookup(Supply(wants), w.key) == w.value
  {
    var k :| 0 <= k < |wants| && wants[k] == w;
  }

  /** All swaps are met in some store, but a shadowed one is not met by what was written before it. */
  lemma RejectedWithinOnly(ws: seq<Write>) returns (db: Contents)
    requires WellFormed(ws) && !ShadowsMet(ws) && !Contradictory(ws)
    ensures Sound(db) && ApplyJudgedBefore(db, ws).Ok? && ApplyJudgedWithin(db, ws).Err?
  {
    WantsAreWanted(ws, |ws|, false);
    var wants := Wants(ws, |ws|, false);
    assert wants + [] == wants;
    assert Consistent(wants) by {
      forall i, j | 0 <= i < |wants| && 0 <= j < |wants| && wants[i].key == wants[j].key
        ensures wants[i].value == wants[j].value
      {
        assert wants[i] in wants && wants[j] in wants;
      }
    }
    db := WantedStore(ws, false, []);
    BeforeAccepts(db, ws);
    WithinIsShadowsAndOpen(db, ws);
  }

  /** A shadowed swap that nothing backs: some store meets every open swap and not this one. */
  lemma RejectedBeforeOnly(ws: seq<Write>, i: nat) returns (db: Contents)
    requires WellFormed(ws) && ShadowsMet(ws) && !OpenNeverMet(ws)
    requires i < |ws| && Shadowed(ws, i) && !Backed(ws, i)
    ensures Sound(db) && ApplyJudgedBefore(db, ws).Err? && ApplyJudgedWithin(db, ws).Ok?
  {
    hide ShadowsMet, MetBefore, OpenNeverMet, Backed, BatchError;
    if exists j | 0 <= j < |ws| :: ws[j].Swap? && !Shadowed(ws, j) && ws[j].key == ws[i].key {
      db := OpenSwapOnly(ws, i);
    } else {
      db := OtherValueThere(ws, i);
    }
    OnlyBeforeRejects(db, ws, i);
  }

  lemma OnlyBeforeRejects(db: Contents, ws: seq<Write>, i: nat)
    requires Sound(db) && BatchError(ws, db.tenants).None? && ShadowsMet(ws)
    requires i < |ws| && !MetBefore(db, ws, i)
    requires forall j | 0 <= j < |ws| && !Shadowed(ws, j) :: MetBefore(db, ws, j)
    ensures ApplyJudgedBefore(db, ws).Err? && ApplyJudgedWithin(db, ws).Ok?
  {
    hide ShadowsMet, MetBefore, Shadowed;
    BeforeAccepts(db, ws);
    WithinIsShadowsAndOpen(db, ws);
  }

  /** An open swap of the same key expects something else. */
  lemma OpenSwapOnly(ws: seq<Write>, i: nat) returns (db: Contents)
    requires WellFormed(ws) && !OpenNeverMet(ws)
    requires i < |ws| && Shadowed(ws, i) && !Backed(ws, i)
    requires exists j | 0 <= j < |ws| :: ws[j].Swap? && !Shadowed(ws, j) && ws[j].key == ws[i].key
    ensures Sound(db) && BatchError(ws, db.tenants).None? && !MetBefore(db, ws, i)
    ensures forall j | 0 <= j < |ws| && !Shadowed(ws, j) :: MetBefore(db, ws, j)
  {
    WantsAreWanted(ws, |ws|, true);
    var wants := Wants(ws, |ws|, true);
    OpenWantsAgree(ws);
    var j :| 0 <= j < |ws| && ws[j].Swap? && !Shadowed(ws, j) && ws[j].key == ws[i].key;
    assert ws[j].expected != ws[i].expected;
    hide WellFormed, BatchError, OpenNeverMet, Wants, Consistent, Backed, Shadowed;
    assert wants + [] == wants;
    db := WantedStore(ws, true, []);
    assert MetBefore(db, ws, j);
  }

  lemma OneMoreWant(wants: seq<Want>, other: Want)
    requires Consistent(wants) && forall w | w in wants :: w.key != other.key
    ensures Consistent(wants + [other])
    ensures forall w | w in wants + [other] :: w in wants || w == other
  {
    assert forall i | 0 <= i < |wants| :: wants[i] in wants;
  }

  /** No open swap is on that key, so the store may hold anything there. */
  lemma OtherValueThere(ws: seq<Write>, i: nat) returns (db: Contents)
    requires WellFormed(ws) && !OpenNeverMet(ws)
    requires i < |ws| && Shadowed(ws, i)
    requires !exists j | 0 <= j < |ws| :: ws[j].Swap? && !Shadowed(ws, j) && ws[j].key == ws[i].key
    ensures Sound(db) && BatchError(ws, db.tenants).None? && !MetBefore(db, ws, i)
    ensures forall j | 0 <= j < |ws| && !Shadowed(ws, j) :: MetBefore(db, ws, j)
  {
    WantsAreWanted(ws, |ws|, true);
    var wants := Wants(ws, |ws|, true);
    OpenWantsAgree(ws);
    var other := Want(ws[i].key, if ws[i].expected.None? then Some([0]) else None);
    assert forall w | w in wants :: w.key != other.key;
    hide WellFormed, BatchError, OpenNeverMet, Wants, Shadowed, Consistent;
    OneMoreWant(wants, other);
    db := WantedStore(ws, true, [other]);
    assert other in [other];
  }

  lemma OpenWantsAgree(ws: seq<Write>)
    ensures Consistent(Wants(ws, |ws|, true))
    ensures !OpenNeverMet(ws) ==> forall w | w in Wants(ws, |ws|, true) :: w.value != Some([])
  {
    var wants := Wants(ws, |ws|, true);
    WantsAreWanted(ws, |ws|, true);
    forall a, b | 0 <= a < |wants| && 0 <= b < |wants| && wants[a].key == wants[b].key
      ensures wants[a].value == wants[b].value
    {
      assert wants[a] in wants && wants[b] in wants;
      var i :| 0 <= i < |ws| && ws[i].Swap? && !Shadowed(ws, i) && wants[a] == Want(ws[i].key, ws[i].expected);
      var j :| 0 <= j < |ws| && ws[j].Swap? && !Shadowed(ws, j) && wants[b] == Want(ws[j].key, ws[j].expected);
      if i < j {
        OpenSwapsAgree(ws, i, j);
      } else if j < i {
        OpenSwapsAgree(ws, j, i);
      }
    }
  }

  /**
   * A batch has the same outcome in all four stores, whatever they hold, if and only if it is harmless.
   */
  lemma InterchangeableIffHarmless(ws: seq<Write>)
    ensures Interchangeable(ws) <==> Harmless(ws)
  {
    if Harmless(ws) {
      forall db | Sound(db)
        ensures SameOutcome(db, ws)
      {
        HarmlessIsSame(db, ws);
      }
    } else {
      var db: Contents;
      if ShadowsMet(ws) {
        var i :| 0 <= i < |ws| && Shadowed(ws, i) && !Backed(ws, i);
        db := RejectedBeforeOnly(ws, i);
      } else {
        db := RejectedWithinOnly(ws);
      }
      assert !SameOutcome(db, ws);
    }
  }

  /**
   * On the empty store, a batch that writes a card and then swaps it: expecting no card passes only when judged
   * before the batch, and expecting the card just written passes only when judged within.
   */
  lemma HarmfulBatches(k: Key, expected: Option<Blob>) returns (ws: seq<Write>)
    requires SafeSegment(k.tenant) && SafeSegment(k.id) && (expected == None || expected == Some([1]))
    ensures ws == [EnsureTenant(k.tenant), Put(k, [1]), Swap(k, expected, [2])] && !Harmless(ws)
    ensures expected.None? ==> ApplyJudgedBefore(EMPTY, ws).Ok? && ApplyJudgedWithin(EMPTY, ws) == Err(Conflict(k))
    ensures expected.Some? ==> ApplyJudgedBefore(EMPTY, ws) == Err(Conflict(k)) && ApplyJudgedWithin(EMPTY, ws).Ok?
  {
    var swap := Swap(k, expected, [2]);
    ws := [EnsureTenant(k.tenant), Put(k, [1]), swap];
    assert ws[1..] == [ws[1], swap] && ws[1..][1..] == [swap] && [swap][1..] == [];
    OneIsSeen(Contents({k.tenant}, []), ws[1], k);
    ThreeAreFine(k, swap);
    ThreeJudged(k, swap);
    if Harmless(ws) {
      HarmlessIsSame(EMPTY, ws);
    }
  }

  lemma ThreeAreFine(k: Key, swap: Write)
    requires SafeSegment(k.tenant) && SafeSegment(k.id) && swap.Swap? && swap.key == k && swap.blob == [2]
    ensures BatchError([EnsureTenant(k.tenant), Put(k, [1]), swap], {}) == None
  {
    var ws := [EnsureTenant(k.tenant), Put(k, [1]), swap];
    assert ws[1..] == [ws[1], swap] && ws[1..][1..] == [swap] && [swap][1..] == [];
    var none: set<string> := {};
    assert none + {k.tenant} == {k.tenant};
    assert BatchError([], {k.tenant}).None?;
    assert BatchError([swap], {k.tenant}).None?;
    assert BatchError([ws[1], swap], {k.tenant}).None?;
    assert BatchError(ws, none) == BatchError([ws[1], swap], none + {k.tenant});
  }

  lemma ThreeJudged(k: Key, swap: Write)
    requires swap.Swap? && swap.key == k
    ensures var ws := [EnsureTenant(k.tenant), Put(k, [1]), swap];
      && FirstMismatch(ws, []) == (if swap.expected.None? then None else Some(Conflict(k)))
      && (swap.expected == Some([1]) ==> ApplyWithin(EMPTY, ws).Ok?)
      && (swap.expected != Some([1]) ==> ApplyWithin(EMPTY, ws) == Err(Conflict(k)))
  {
    var ws := [EnsureTenant(k.tenant), Put(k, [1]), swap];
    assert ws[1..] == [ws[1], swap] && ws[1..][1..] == [swap] && [swap][1..] == [];
    assert FirstMismatch([swap], []) == if swap.expected.None? then None else Some(Conflict(k));
    assert FirstMismatch([ws[1], swap], []) == FirstMismatch([swap], []);
    var db1 := ApplyOne(EMPTY, ws[0]);
    var db2 := ApplyOne(db1, ws[1]);
    OneIsSeen(db1, ws[1], k);
    assert ApplyWithin(EMPTY, ws) == ApplyWithin(db1, [ws[1], swap]);
    assert ApplyWithin(db1, [ws[1], swap]) == ApplyWithin(db2, [swap]);
    assert ApplyWithin(ApplyOne(db2, swap), []).Ok?;
  }
}
