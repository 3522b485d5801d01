/**
 * What a batch of writes means, told key by key and place by place: which errors it meets first, what it
 * leaves under every key, and in which order the cards are listed afterwards.
 */
module ConfigMeaning {
  import opened Outcomes
  import opened Collections
  import opened Segments
  import opened ConfigCards

  // ---- errors ----

  /** What one write is refused for, in the order in which it is looked at. */
  lemma WriteErrorMeans(w: Write, known: set<string>)
    ensures var tenant := if w.EnsureTenant? then w.tenant else w.key.tenant;
      var e := WriteError(w, known);
      && (e == Some(BadTenant(tenant)) <==> !SafeSegment(tenant))
      && (SafeSegment(tenant) ==>
            && (w.EnsureTenant? ==> e.None?)
            && (!w.EnsureTenant? && !SafeSegment(w.key.id) ==> e == Some(BadId(w.key.id)))
            && (!w.EnsureTenant? && SafeSegment(w.key.id) ==>
                  && (w.Delete? ==> e.None?)
                  && (!w.Delete? && |w.blob| == 0 ==> e == Some(EmptyBlob(w.key.id)))
                  && (!w.Delete? && |w.blob| > 0 ==> e == if tenant in known then None else Some(NoTenant(tenant)))))
  {
  }

  /** The tenants known when write `i` is looked at: those there before, and those ensured by then. */
  ghost function KnownAt(known: set<string>, ws: seq<Write>, i: nat): set<string>
    requires i <= |ws|
  {
    known + set j | 0 <= j < i && ws[j].EnsureTenant? :: ws[j].tenant
  }

  ghost predicate FailsFirst(ws: seq<Write>, known: set<string>, i: nat, e: Error) {
    && i < |ws| && WriteError(ws[i], KnownAt(known, ws, i)) == Some(e)
    && forall j: nat | j < i :: WriteError(ws[j], KnownAt(known, ws, j)).None?
  }

  lemma KnownLater(known: set<string>, ws: seq<Write>, i: nat)
    requires i < |ws|
    ensures KnownAt(known, ws, i + 1)
      == KnownAt(if ws[0].EnsureTenant? then known + {ws[0].tenant} else known, ws[1..], i)
  {
    var rest := ws[1..];
    assert forall j | 0 < j < |ws| :: ws[j] == rest[j - 1];
    assert forall j | 0 <= j < i :: rest[j] == ws[j + 1];
  }

  /** A batch's error is that of its first write that has one. */
  lemma {:induction false} BatchErrorMeans(ws: seq<Write>, known: set<string>)
    ensures match BatchError(ws, known)
      case None => forall j: nat | j < |ws| :: WriteError(ws[j], KnownAt(known, ws, j)).None?
      case Some(e) => exists i: nat :: FailsFirst(ws, known, i, e)
    decreases |ws|
  {
    hide WriteError, KnownAt;
    if |ws| > 0 {
      NothingEnsured(known, ws);
      var first := WriteError(ws[0], known);
      if first.Some? {
        assert BatchError(ws, known) == first;
        assert FailsFirst(ws, known, 0, first.value);
      } else {
        var next := if ws[0].EnsureTenant? then known + {ws[0].tenant} else known;
        BatchErrorMeans(ws[1..], next);
        RestFails(ws, known, next);
        var e := BatchError(ws[1..], next);
        assert BatchError(ws, known) == e;
        if e.Some? {
          var i: nat :| FailsFirst(ws[1..], next, i, e.value);
          assert FailsFirst(ws, known, i + 1, e.value);
        }
      }
    }
  }

  lemma NothingEnsured(known: set<string>, ws: seq<Write>)
    ensures KnownAt(known, ws, 0) == known
  {
  }

  lemma RestFails(ws: seq<Write>, known: set<string>, next: set<string>)
    requires |ws| > 0 && WriteError(ws[0], known).None?
    requires next == if ws[0].EnsureTenant? then known + {ws[0].tenant} else known
    ensures forall j: nat | 0 < j < |ws| :: WriteError(ws[j], KnownAt(known, ws, j)) == WriteError(ws[1..][j - 1], KnownAt(next, ws[1..], j - 1))
    ensures forall i: nat, e | FailsFirst(ws[1..], next, i, e) :: FailsFirst(ws, known, i + 1, e)
  {
    hide WriteError, KnownAt;
    NothingEnsured(known, ws);
    forall j: nat | 0 < j < |ws|
      ensures WriteError(ws[j], KnownAt(known, ws, j)) == WriteError(ws[1..][j - 1], KnownAt(next, ws[1..], j - 1))
    {
      KnownLater(known, ws, j - 1);
    }
  }

  /** The swap at `i` does not find what it expects in these cards. */
  predicate Misses(ws: seq<Write>, i: nat, cards: seq<Card>) {
    i < |ws| && ws[i].Swap? && Lookup(cards, ws[i].key) != ws[i].expected
  }

  ghost predicate MissesFirst(ws: seq<Write>, i: nat, cards: seq<Card>) {
    Misses(ws, i, cards) && forall j: nat | j < i :: !Misses(ws, j, cards)
  }

  /** Judged before the batch, the conflict is that of the first swap that misses in the cards before. */
  lemma {:induction false} FirstMismatchMeans(ws: seq<Write>, cards: seq<Card>)
    ensures match FirstMismatch(ws, cards)
      case None => forall j: nat :: !Misses(ws, j, cards)
      case Some(e) => exists i: nat :: MissesFirst(ws, i, cards) && e == Conflict(ws[i].key)
    decreases |ws|
  {
    hide Lookup;
    if |ws| > 0 {
      FirstMismatchMeans(ws[1..], cards);
      assert forall j: nat | 0 < j :: Misses(ws, j, cards) <==> Misses(ws[1..], j - 1, cards);
      if Misses(ws, 0, cards) {
        assert MissesFirst(ws, 0, cards);
      } else if FirstMismatch(ws[1..], cards).Some? {
        var i: nat :| MissesFirst(ws[1..], i, cards) && FirstMismatch(ws[1..], cards).value == Conflict(ws[1..][i].key);
        assert MissesFirst(ws, i + 1, cards);
      }
    }
  }

  /** The swap at `i` does not find what it expects in what the writes before it leave. */
  ghost predicate MissesThen(db: Contents, ws: seq<Write>, i: nat) {
    i < |ws| && Misses(ws, i, ApplyAll(db, ws[..i]).cards)
  }

  ghost predicate MissesThenFirst(db: Contents, ws: seq<Write>, i: nat) {
    MissesThen(db, ws, i) && forall j: nat | j < i :: !MissesThen(db, ws, j)
  }

  /** Judged within the batch, the writes all go through, or the first swap that misses on the way ends it. */
  lemma {:induction false} WithinMeans(db: Contents, ws: seq<Write>)
    ensures match ApplyWithin(db, ws)
      case Ok(after) => after == ApplyAll(db, ws) && forall j: nat :: !MissesThen(db, ws, j)
      case Err(e) => exists i: nat :: MissesThenFirst(db, ws, i) && e == Conflict(ws[i].key)
    decreases |ws|
  {
    hide Lookup, ApplyOne;
    if |ws| > 0 {
      var db1 := ApplyOne(db, ws[0]);
      WithinMeans(db1, ws[1..]);
      assert ApplyAll(db, ws[..0]) == db;
      forall j: nat | 0 < j
        ensures MissesThen(db, ws, j) <==> MissesThen(db1, ws[1..], j - 1)
      {
        if j < |ws| {
          assert ws[..j][1..] == ws[1..][..j - 1] && ws[..j][0] == ws[0];
        }
      }
      if MissesThen(db, ws, 0) {
        assert MissesThenFirst(db, ws, 0);
      } else if ApplyWithin(db1, ws[1..]).Err? {
        var i: nat :| MissesThenFirst(db1, ws[1..], i) && ApplyWithin(db1, ws[1..]).error == Conflict(ws[1..][i].key);
        assert MissesThenFirst(db, ws, i + 1);
      }
    }
  }

  ghost predicate NoneFails(ws: seq<Write>, known: set<string>) {
    forall j: nat | j < |ws| :: WriteError(ws[j], KnownAt(known, ws, j)).None?
  }

  /**
   * With the swaps judged before the batch: the first write with an error of its own ends it, else the first swap
   * that misses in the cards before, and else every write is carried out.
   */
  lemma JudgedBeforeMeans(db: Contents, ws: seq<Write>)
    ensures match ApplyJudgedBefore(db, ws)
      case Ok(after) => NoneFails(ws, db.tenants) && (forall j: nat :: !Misses(ws, j, db.cards)) && after == ApplyAll(db, ws)
      case Err(e) =>
        || (exists i: nat :: FailsFirst(ws, db.tenants, i, e))
        || (NoneFails(ws, db.tenants) && exists i: nat :: MissesFirst(ws, i, db.cards) && e == Conflict(ws[i].key))
  {
    hide Misses, FailsFirst, WriteError, BatchError, FirstMismatch;
    BatchErrorMeans(ws, db.tenants);
    FirstMismatchMeans(ws, db.cards);
  }

  /** With the swaps judged within the batch, it is the first swap that misses in what the writes before it leave. */
  lemma JudgedWithinMeans(db: Contents, ws: seq<Write>)
    ensures match ApplyJudgedWithin(db, ws)
      case Ok(after) => NoneFails(ws, db.tenants) && (forall j: nat :: !MissesThen(db, ws, j)) && after == ApplyAll(db, ws)
      case Err(e) =>
        || (exists i: nat :: FailsFirst(ws, db.tenants, i, e))
        || (NoneFails(ws, db.tenants) && exists i: nat :: MissesThenFirst(db, ws, i) && e == Conflict(ws[i].key))
  {
    hide MissesThen, FailsFirst, WriteError, BatchError, ApplyWithin;
    BatchErrorMeans(ws, db.tenants);
    WithinMeans(db, ws);
  }

  // ---- what is left under a key ----

  /** A key's blob is that of the one card under it. */
  lemma LookupMeans(cards: seq<Card>, key: Key, blob: Blob)
    requires DistinctKeys(cards)
    ensures Lookup(cards, key) == Some(blob) <==> Card(key, blob) in cards
  {
    if i :| 0 <= i < |cards| && cards[i] == Card(key, blob) {
      assert Find(cards, key) == Some(i);
    }
  }

  predicate WritesTo(w: Write, key: Key) {
    !w.EnsureTenant? && w.key == key
  }

  ghost predicate LastWrite(ws: seq<Write>, key: Key, i: nat) {
    i < |ws| && WritesTo(ws[i], key) && forall j | i < j < |ws| :: !WritesTo(ws[j], key)
  }

  /** What the last write to the key leaves there. */
  ghost predicate SaysLast(ws: seq<Write>, key: Key, said: Option<Blob>) {
    exists i: nat :: LastWrite(ws, key, i) && said == if ws[i].Delete? then None else Some(ws[i].blob)
  }

  ghost predicate Untouched(ws: seq<Write>, key: Key) {
    forall j | 0 <= j < |ws| :: !WritesTo(ws[j], key)
  }

  lemma {:induction false} ApplyThen(db: Contents, ws: seq<Write>, w: Write)
    ensures ApplyAll(db, ws + [w]) == ApplyOne(ApplyAll(db, ws), w)
    decreases |ws|
  {
    if |ws| == 0 {
      assert ws + [w] == [w] && [w][1..] == [];
      assert ApplyAll(db, [w]) == ApplyAll(ApplyOne(db, w), []);
    } else {
      assert (ws + [w])[1..] == ws[1..] + [w];
      ApplyThen(ApplyOne(db, ws[0]), ws[1..], w);
    }
  }

  /** One write leaves its blob under its key, or nothing, and every other key as it was. */
  lemma OneLeaves(db: Contents, w: Write, key: Key)
    requires DistinctKeys(db.cards)
    ensures var after := ApplyOne(db, w);
      && DistinctKeys(after.cards)
      && Lookup(after.cards, key) == (if !WritesTo(w, key) then Lookup(db.cards, key) else if w.Delete? then None else Some(w.blob))
      && after.tenants == if w.EnsureTenant? then db.tenants + {w.tenant} else db.tenants
  {
    if w.Delete? {
      DeleteLeaves(db.cards, w.key, key);
    } else if !w.EnsureTenant? {
      PutLeaves(db.cards, w.key, w.blob, key);
    }
  }

  lemma DeleteLeaves(cards: seq<Card>, gone: Key, key: Key)
    requires DistinctKeys(cards)
    ensures DistinctKeys(Remove(cards, gone))
    ensures Lookup(Remove(cards, gone), key) == if key == gone then None else Lookup(cards, key)
  {
    if Find(cards, gone).Some? {
      var i := Find(cards, gone).value;
      var after := Remove(cards, gone);
      assert forall k | 0 <= k < |after| :: after[k] == cards[if k < i then k else k + 1];
      if key != gone && Find(cards, key).Some? {
        var p := Find(cards, key).value;
        assert after[if p < i then p else p - 1] == cards[p];
      }
    }
  }

  lemma PutLeaves(cards: seq<Card>, put: Key, blob: Blob, key: Key)
    requires DistinctKeys(cards)
    ensures DistinctKeys(Upsert(cards, put, blob))
    ensures Lookup(Upsert(cards, put, blob), key) == if key == put then Some(blob) else Lookup(cards, key)
  {
    var after := Upsert(cards, put, blob);
    if Find(cards, key).Some? {
      assert after[Find(cards, key).value].key == key;
    }
  }

  /** After a batch a key holds what the last write to it says, and what it held when none writes to it. */
  lemma {:induction false} BatchLeaves(db: Contents, ws: seq<Write>, key: Key)
    requires DistinctKeys(db.cards)
    ensures DistinctKeys(ApplyAll(db, ws).cards)
    ensures Untouched(ws, key) ==> Lookup(ApplyAll(db, ws).cards, key) == Lookup(db.cards, key)
    ensures !Untouched(ws, key) ==> SaysLast(ws, key, Lookup(ApplyAll(db, ws).cards, key))
  {
    hide ApplyOne, Lookup, DistinctKeys, SaysLast, Untouched;
    if |ws| == 0 {
      NothingWritten(key);
    } else {
      var front, w := ws[..|ws| - 1], ws[|ws| - 1];
      assert ws == front + [w];
      BatchLeaves(db, front, key);
      ApplyThen(db, front, w);
      OneLeaves(ApplyAll(db, front), w, key);
      OneMoreWrite(front, w, key);
    }
  }

  lemma NothingWritten(key: Key)
    ensures Untouched([], key)
  {
  }

  lemma OneMoreWrite(ws: seq<Write>, w: Write, key: Key)
    ensures Untouched(ws + [w], key) <==> Untouched(ws, key) && !WritesTo(w, key)
    ensures WritesTo(w, key) ==> SaysLast(ws + [w], key, if w.Delete? then None else Some(w.blob))
    ensures !WritesTo(w, key) ==> forall said :: SaysLast(ws, key, said) ==> SaysLast(ws + [w], key, said)
  {
    assert forall j | 0 <= j < |ws| :: (ws + [w])[j] == ws[j];
    assert (ws + [w])[|ws|] == w;
    if WritesTo(w, key) {
      assert LastWrite(ws + [w], key, |ws|);
    } else {
      forall said | SaysLast(ws, key, said)
        ensures SaysLast(ws + [w], key, said)
      {
        var i: nat :| LastWrite(ws, key, i) && said == if ws[i].Delete? then None else Some(ws[i].blob);
        assert LastWrite(ws + [w], key, i);
      }
    }
  }

  /** And the tenants are those before and those that it ensures. */
  lemma {:induction false} BatchKnows(db: Contents, ws: seq<Write>)
    ensures ApplyAll(db, ws).tenants == KnownAt(db.tenants, ws, |ws|)
  {
    if |ws| > 0 {
      var front, w := ws[..|ws| - 1], ws[|ws| - 1];
      assert ws == front + [w];
      BatchKnows(db, front);
      ApplyThen(db, front, w);
      assert KnownAt(db.tenants, ws, |ws|)
        == KnownAt(db.tenants, front, |front|) + (if w.EnsureTenant? then {w.tenant} else {});
    }
  }

  // ---- in which order the cards are listed ----

  /** Just before write `i`, nothing is there under the key. */
  ghost predicate AbsentAt(db: Contents, ws: seq<Write>, i: nat, key: Key)
    requires i <= |ws|
  {
    || (Untouched(ws[..i], key) && forall c | c in db.cards :: c.key != key)
    || exists d: nat :: LastWrite(ws[..i], key, d) && ws[d].Delete?
  }

  /**
   * When the card under a key was born: before the batch, at its old place, if no write has deleted it; otherwise
   * at the write that found nothing under the key, no later one having deleted it.
   */
  ghost predicate BornAt(db: Contents, ws: seq<Write>, key: Key, n: int) {
    || (-|db.cards| <= n < 0 && db.cards[|db.cards| + n].key == key && forall j | 0 <= j < |ws| :: !(ws[j].Delete? && ws[j].key == key))
    || (0 <= n < |ws| && WritesTo(ws[n], key) && !ws[n].Delete? && AbsentAt(db, ws, n, key)
        && forall j | n < j < |ws| :: !(ws[j].Delete? && ws[j].key == key))
  }

  ghost predicate Births(db: Contents, ws: seq<Write>, cards: seq<Card>, births: seq<int>) {
    && |births| == |cards|
    && (forall a | 0 <= a < |births| :: BornAt(db, ws, cards[a].key, births[a]))
    && forall a, b | 0 <= a < b < |births| :: births[a] < births[b]
  }

  /** A write that does not delete the key leaves its birth alone. */
  lemma BornStays(db: Contents, ws: seq<Write>, w: Write, key: Key, n: int)
    requires BornAt(db, ws, key, n) && !(w.Delete? && w.key == key)
    ensures BornAt(db, ws + [w], key, n)
  {
    if n >= 0 {
      assert (ws + [w])[..n] == ws[..n];
    }
  }

  lemma BornNow(db: Contents, ws: seq<Write>, w: Write)
    requires DistinctKeys(db.cards) && !w.EnsureTenant? && !w.Delete?
    requires Lookup(ApplyAll(db, ws).cards, w.key).None?
    ensures BornAt(db, ws + [w], w.key, |ws|)
  {
    hide ApplyAll;
    assert (ws + [w])[..|ws|] == ws;
    BatchLeaves(db, ws, w.key);
    if !Untouched(ws, w.key) {
      var i: nat :| LastWrite(ws, w.key, i) && ws[i].Delete?;
      assert (ws + [w])[i] == ws[i];
    }
  }

  /** The cards are listed in the order of their births. */
  lemma {:induction false} CardsByBirth(db: Contents, ws: seq<Write>) returns (births: seq<int>)
    requires DistinctKeys(db.cards)
    ensures Births(db, ws, ApplyAll(db, ws).cards, births)
  {
    hide BornAt;
    if |ws| == 0 {
      births := seq(|db.cards|, a => a - |db.cards|);
      forall a | 0 <= a < |births|
        ensures BornAt(db, ws, db.cards[a].key, births[a])
      {
        BornBefore(db, a);
      }
      assert ws == [];
    } else {
      var front, w := ws[..|ws| - 1], ws[|ws| - 1];
      assert ws == front + [w];
      var before := CardsByBirth(db, front);
      ApplyThen(db, front, w);
      births := BirthsAfter(db, front, w, before);
    }
  }

  lemma BornBefore(db: Contents, a: nat)
    requires a < |db.cards|
    ensures BornAt(db, [], db.cards[a].key, a - |db.cards|)
  {
  }

  lemma BirthsAfter(db: Contents, ws: seq<Write>, w: Write, before: seq<int>) returns (births: seq<int>)
    requires DistinctKeys(db.cards) && Births(db, ws, ApplyAll(db, ws).cards, before)
    ensures Births(db, ws + [w], ApplyOne(ApplyAll(db, ws), w).cards, births)
  {
    hide BornAt, ApplyAll;
    var mid := ApplyAll(db, ws);
    BatchLeaves(db, ws, Key("", "", ""));
    if w.Delete? {
      births := DeleteBirths(db, ws, w, mid.cards, before);
    } else {
      forall a | 0 <= a < |before|
        ensures BornAt(db, ws + [w], mid.cards[a].key, before[a])
      {
        BornStays(db, ws, w, mid.cards[a].key, before[a]);
      }
      births := before;
      if !w.EnsureTenant? && Find(mid.cards, w.key).None? {
        BornNow(db, ws, w);
        BornByThen(db, ws, mid.cards, before);
        births := before + [|ws|];
      }
    }
  }

  lemma BornByThen(db: Contents, ws: seq<Write>, cards: seq<Card>, births: seq<int>)
    requires Births(db, ws, cards, births)
    ensures forall a | 0 <= a < |births| :: births[a] < |ws|
  {
    assert forall a | 0 <= a < |births| :: BornAt(db, ws, cards[a].key, births[a]);
  }

  lemma DeleteBirths(db: Contents, ws: seq<Write>, w: Write, cards: seq<Card>, before: seq<int>) returns (births: seq<int>)
    requires w.Delete? && DistinctKeys(cards) && Births(db, ws, cards, before)
    ensures Births(db, ws + [w], Remove(cards, w.key), births)
  {
    hide BornAt;
    births := before;
    var after := Remove(cards, w.key);
    if Find(cards, w.key).Some? {
      var i := Find(cards, w.key).value;
      births := before[..i] + before[i + 1..];
      assert forall k | 0 <= k < |after| :: after[k] == cards[if k < i then k else k + 1] && births[k] == before[if k < i then k else k + 1];
    }
    forall a | 0 <= a < |births|
      ensures BornAt(db, ws + [w], after[a].key, births[a])
    {
      BornStays(db, ws, w, after[a].key, births[a]);
    }
  }

  // ---- listings ----

  predicate InListing(cards: seq<Card>, collection: string, tenant: string, p: nat) {
    p < |cards| && cards[p].key.collection == collection && cards[p].key.tenant == tenant
  }

  /** The places of the cards that belong to a collection of a tenant, ascending. */
  ghost predicate PlacesOf(cards: seq<Card>, collection: string, tenant: string, at: seq<nat>) {
    && (forall i, j | 0 <= i < j < |at| :: at[i] < at[j])
    && (forall k | 0 <= k < |at| :: InListing(cards, collection, tenant, at[k]))
    && forall p: nat | InListing(cards, collection, tenant, p) :: p in at
  }

  /** A listing is the blobs of exactly the tenant's cards of the collection, in the order of the cards. */
  lemma {:induction false} ListMeans(cards: seq<Card>, collection: string, tenant: string) returns (at: seq<nat>)
    ensures PlacesOf(cards, collection, tenant, at)
    ensures |ListOf(cards, collection, tenant)| == |at|
    ensures forall k | 0 <= k < |at| :: at[k] < |cards| && ListOf(cards, collection, tenant)[k] == cards[at[k]].blob
  {
    hide PlacesOf, InListing;
    if |cards| == 0 {
      at := [];
      NoPlaces(collection, tenant);
    } else {
      var n := |cards| - 1;
      at := ListMeans(cards[..n], collection, tenant);
      PlacesGrow(cards, n, collection, tenant, at);
      if cards[n].key.collection == collection && cards[n].key.tenant == tenant {
        at := at + [n];
      }
    }
  }

  lemma NoPlaces(collection: string, tenant: string)
    ensures PlacesOf([], collection, tenant, [])
  {
  }

  lemma PlacesGrow(cards: seq<Card>, n: nat, collection: string, tenant: string, at: seq<nat>)
    requires n == |cards| - 1 && PlacesOf(cards[..n], collection, tenant, at)
    ensures PlacesOf(cards, collection, tenant,
                     if cards[n].key.collection == collection && cards[n].key.tenant == tenant then at + [n] else at)
  {
    var front := cards[..n];
    var more := if InListing(cards, collection, tenant, n) then at + [n] else at;
    hide InListing;
    forall p: nat
      ensures p < n ==> (InListing(cards, collection, tenant, p) <==> InListing(front, collection, tenant, p))
      ensures InListing(front, collection, tenant, p) ==> p < n
      ensures InListing(cards, collection, tenant, p) ==> p <= n
    {
      ListedEarlier(cards, n, collection, tenant, p);
    }
    assert forall p: nat | InListing(cards, collection, tenant, p) :: p == n || p in at;
  }

  lemma ListedEarlier(cards: seq<Card>, n: nat, collection: string, tenant: string, p: nat)
    requires n == |cards| - 1
    ensures p < n ==> (InListing(cards, collection, tenant, p) <==> InListing(cards[..n], collection, tenant, p))
    ensures InListing(cards[..n], collection, tenant, p) ==> p < n
    ensures InListing(cards, collection, tenant, p) ==> p <= n
  {
  }
}
