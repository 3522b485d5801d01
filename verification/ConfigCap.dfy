/** The per-tenant cap of a typed store: exact for one writer, and how far concurrent writers overshoot it. */
module ConfigCap {
  import opened Outcomes
  import opened Collections
  import opened Segments
  import opened ConfigCards
  import opened ConfigRows
  import opened ConfigBackends

  // ---- one writer ----

  lemma {:induction false} ListSplits(a: seq<Card>, b: seq<Card>, collection: string, tenant: string)
    ensures ListOf(a + b, collection, tenant) == ListOf(a, collection, tenant) + ListOf(b, collection, tenant)
  {
    if |b| == 0 {
      assert a + b == a;
    } else {
      ListSplits(a, b[..|b| - 1], collection, tenant);
      assert (a + b)[..|a + b| - 1] == a + b[..|b| - 1];
    }
  }

  function Listed(key: Key, collection: string, tenant: string): nat {
    if Belongs(key, collection, tenant) then 1 else 0
  }

  lemma ListsOne(c: Card, collection: string, tenant: string)
    ensures |ListOf([c], collection, tenant)| == Listed(c.key, collection, tenant)
  {
    assert [c][..0] == [];
  }

  /** An upsert adds to a listing exactly when its card is new and belongs there. */
  lemma UpsertCount(cards: seq<Card>, key: Key, blob: Blob, collection: string, tenant: string)
    ensures |ListOf(Upsert(cards, key, blob), collection, tenant)|
      == |ListOf(cards, collection, tenant)| + (if Find(cards, key).None? then Listed(key, collection, tenant) else 0)
  {
    ListsOne(Card(key, blob), collection, tenant);
    match Find(cards, key)
    case None => ListSplits(cards, [Card(key, blob)], collection, tenant);
    case Some(i) =>
      assert cards == cards[..i] + ([cards[i]] + cards[i + 1..]);
      assert Upsert(cards, key, blob) == cards[..i] + ([Card(key, blob)] + cards[i + 1..]);
      ListsOne(cards[i], collection, tenant);
      ListSplits(cards[..i], [cards[i]] + cards[i + 1..], collection, tenant);
      ListSplits([cards[i]], cards[i + 1..], collection, tenant);
      ListSplits(cards[..i], [Card(key, blob)] + cards[i + 1..], collection, tenant);
      ListSplits([Card(key, blob)], cards[i + 1..], collection, tenant);
  }

  /** A typed view of one collection; `blob` stands for the card's bytes after its own checks. */
  class Store {
    const backend: MemoryBackend
    const collection: string
    const cap: nat

    constructor (backend: MemoryBackend, collection: string, cap: nat)
      ensures this.backend == backend && this.collection == collection && this.cap == if cap == 0 then 512 else cap
    {
      this.backend, this.collection, this.cap := backend, collection, if cap == 0 then 512 else cap;
    }

    /** Create or replace one card. */
    method Put(tenant: string, id: string, blob: Blob) returns (r: Status)
      requires backend.Valid()
      modifies backend
      ensures backend.Valid()
      ensures Lands(old(backend.Contents()), PutOutcome(old(backend.Contents()), Key(collection, tenant, id), blob, cap), backend.Contents(), r)
    {
      if !SafeSegment(tenant) {
        return Err(BadTenant(tenant));
      }
      if !SafeSegment(id) {
        return Err(BadId(id));
      }
      var key := Key(collection, tenant, id);
      var held := backend.Get(key);
      if held.None? {
        var n := backend.Count(collection, tenant);
        if n >= cap {
          return Err(Full);
        }
      }
      r := backend.Apply([EnsureTenant(tenant), ConfigCards.Put(key, blob)]);
    }

    /** Remove one card, and say whether it was there. */
    method Delete(tenant: string, id: string) returns (r: Result<bool, Error>)
      requires backend.Valid()
      modifies backend
      ensures backend.Valid()
      ensures var before := old(backend.Contents()); var key := Key(collection, tenant, id);
        if SafeSegment(tenant) && SafeSegment(id)
        then r == Ok(Lookup(before.cards, key).Some?) && backend.Contents() == before.(cards := Remove(before.cards, key))
        else r.Err? && backend.Contents() == before
    {
      if !SafeSegment(tenant) {
        return Err(BadTenant(tenant));
      }
      if !SafeSegment(id) {
        return Err(BadId(id));
      }
      ghost var before := backend.Contents();
      var key := Key(collection, tenant, id);
      var held := backend.Get(key);
      var applied := backend.Apply([ConfigCards.Delete(key)]);
      DeleteAlone(before, key);
      return Ok(held.Some?);
    }
  }

  lemma DeleteAlone(db: Contents, key: Key)
    requires SafeSegment(key.tenant) && SafeSegment(key.id)
    ensures ApplyJudgedBefore(db, [ConfigCards.Delete(key)]) == Ok(db.(cards := Remove(db.cards, key)))
  {
    var ws := [ConfigCards.Delete(key)];
    assert ws[1..] == [];
    assert BatchError(ws, db.tenants).None? && FirstMismatch(ws, db.cards).None?;
    assert ApplyAll(db, ws) == ApplyAll(ApplyOne(db, ws[0]), []);
  }

  /** What one writer's put does: a new id only while the tenant's collection is below the cap. */
  function PutOutcome(db: Contents, key: Key, blob: Blob, cap: nat): Result<Contents, Error> {
    if !SafeSegment(key.tenant) then Err(BadTenant(key.tenant))
    else if !SafeSegment(key.id) then Err(BadId(key.id))
    else if Lookup(db.cards, key).None? && |ListOf(db.cards, key.collection, key.tenant)| >= cap then Err(Full)
    else ApplyJudgedBefore(db, [EnsureTenant(key.tenant), ConfigCards.Put(key, blob)])
  }

  lemma PutAlone(db: Contents, key: Key, blob: Blob)
    ensures var r := ApplyJudgedBefore(db, [EnsureTenant(key.tenant), ConfigCards.Put(key, blob)]);
      r.Ok? ==> r.value.cards == Upsert(db.cards, key, blob)
  {
    var ws := [EnsureTenant(key.tenant), ConfigCards.Put(key, blob)];
    assert ws[1..] == [ConfigCards.Put(key, blob)] && ws[1..][1..] == [];
    assert ApplyAll(db, ws) == ApplyAll(ApplyOne(db, ws[0]), ws[1..]);
    assert ApplyAll(ApplyOne(db, ws[0]), ws[1..]) == ApplyAll(ApplyOne(ApplyOne(db, ws[0]), ws[1]), []);
  }

  /**
   * What a put does: a bad tenant, a bad id, a full listing and an empty blob are refused in this order, and
   * otherwise the tenant exists and the card is there: in its old place, or after all the others when it is new.
   */
  lemma PutMeans(db: Contents, key: Key, blob: Blob, cap: nat)
    requires DistinctKeys(db.cards)
    ensures var r := PutOutcome(db, key, blob, cap);
      var there := exists i :: 0 <= i < |db.cards| && db.cards[i].key == key;
      && (r == Err(BadTenant(key.tenant)) <==> !SafeSegment(key.tenant))
      && (SafeSegment(key.tenant) && !SafeSegment(key.id) ==> r == Err(BadId(key.id)))
      && (SafeSegment(key.tenant) && SafeSegment(key.id) ==>
            if !there && |ListOf(db.cards, key.collection, key.tenant)| >= cap then r == Err(Full)
            else if |blob| == 0 then r == Err(EmptyBlob(key.id))
            else
              && r.Ok? && r.value.tenants == db.tenants + {key.tenant}
              && |r.value.cards| == |db.cards| + (if there then 0 else 1)
              && (!there ==> r.value.cards[|db.cards|] == Card(key, blob))
              && forall i | 0 <= i < |db.cards| ::
                r.value.cards[i] == if db.cards[i].key == key then Card(key, blob) else db.cards[i])
  {
    var ws := [EnsureTenant(key.tenant), ConfigCards.Put(key, blob)];
    assert ws[1..] == [ConfigCards.Put(key, blob)] && ws[1..][1..] == [];
    if SafeSegment(key.tenant) && SafeSegment(key.id) {
      assert WriteError(ws[0], db.tenants).None?;
      assert BatchError(ws, db.tenants) == BatchError(ws[1..], db.tenants + {key.tenant});
      assert BatchError(ws[1..], db.tenants + {key.tenant}) == if |blob| == 0 then Some(EmptyBlob(key.id)) else None;
      assert FirstMismatch(ws, db.cards) == FirstMismatch(ws[1..], db.cards) == None;
      assert ApplyAll(db, ws) == ApplyAll(ApplyOne(db, ws[0]), ws[1..]);
      assert ApplyAll(ApplyOne(db, ws[0]), ws[1..]) == ApplyAll(ApplyOne(ApplyOne(db, ws[0]), ws[1]), []);
    }
  }

  /** For one writer the cap is exact: no put takes any listing past it, and none but the put's own listing grows. */
  lemma OneWriterIsExact(db: Contents, key: Key, blob: Blob, cap: nat, collection: string, tenant: string)
    requires PutOutcome(db, key, blob, cap).Ok?
    ensures var before := |ListOf(db.cards, collection, tenant)|;
      var after := |ListOf(PutOutcome(db, key, blob, cap).value.cards, collection, tenant)|;
      && before <= after
      && (after > before <==> Lookup(db.cards, key).None? && Belongs(key, collection, tenant))
      && (after > before ==> after <= cap)
  {
    PutAlone(db, key, blob);
    UpsertCount(db.cards, key, blob, collection, tenant);
  }

  // ---- several writers: read, count and apply are three calls ----

  type Id = string

  /** Where a put is; `Applying` has passed the cap, or found its card already there. */
  datatype PutCall = Reading(id: Id) | Counting(id: Id) | Applying(id: Id)

  /** One tenant's collection and the puts in flight on it. */
  datatype Site = Site(present: set<Id>, puts: seq<PutCall>)

  datatype Move = Begin(id: Id) | Step(put: nat) | Drop(id: Id)

  function Without(puts: seq<PutCall>, i: nat): seq<PutCall>
    requires i < |puts|
  {
    puts[..i] + puts[i + 1..]
  }

  function StepPut(s: Site, i: nat, cap: nat): Site
    requires i < |s.puts|
  {
    match s.puts[i]
    case Reading(id) => s.(puts := s.puts[i := if id in s.present then Applying(id) else Counting(id)])
    case Counting(id) => if |s.present| >= cap then s.(puts := Without(s.puts, i)) else s.(puts := s.puts[i := Applying(id)])
    case Applying(id) => Site(s.present + {id}, Without(s.puts, i))
  }

  /** At most `width` puts are in flight; a delete is one call. */
  function Next(s: Site, m: Move, cap: nat, width: nat): Site {
    match m
    case Begin(id) => if |s.puts| < width then s.(puts := s.puts + [Reading(id)]) else s
    case Step(i) => if i < |s.puts| then StepPut(s, i, cap) else s
    case Drop(id) => s.(present := s.present - {id})
  }

  function Run(s: Site, moves: seq<Move>, cap: nat, width: nat): Site
    decreases |moves|
  {
    if |moves| == 0 then s else Run(Next(s, moves[0], cap, width), moves[1..], cap, width)
  }

  /** The ids whose put will land whatever happens. */
  function Pending(puts: seq<PutCall>): set<Id> {
    set i | 0 <= i < |puts| && puts[i].Applying? :: puts[i].id
  }

  lemma {:induction false} PendingIsSmall(puts: seq<PutCall>)
    ensures |Pending(puts)| <= |puts|
  {
    if |puts| > 0 {
      var front, last := puts[..|puts| - 1], puts[|puts| - 1];
      PendingIsSmall(front);
      assert Pending(puts) <= Pending(front) + (if last.Applying? then {last.id} else {}) by {
        assert puts == front + [last];
      }
      SubsetCount(Pending(puts), Pending(front) + (if last.Applying? then {last.id} else {}));
    }
  }

  /** One more card than the cap for every further put that can be in flight. */
  ghost predicate WithinBound(s: Site, cap: nat, width: nat) {
    |s.puts| <= width && |s.present + Pending(s.puts)| <= cap + width - 1
  }

  lemma MoveKeepsBound(s: Site, m: Move, cap: nat, width: nat)
    requires width >= 1 && WithinBound(s, cap, width)
    ensures WithinBound(Next(s, m, cap, width), cap, width)
  {
    var s' := Next(s, m, cap, width);
    if m.Step? && m.put < |s.puts| && s.puts[m.put].Counting? && |s.present| < cap {
      PassKeepsBound(s, m.put, cap, width);
    } else {
      NothingIsAdded(s, m, cap, width);
      SubsetCount(s'.present + Pending(s'.puts), s.present + Pending(s.puts));
    }
  }

  lemma PassKeepsBound(s: Site, i: nat, cap: nat, width: nat)
    requires WithinBound(s, cap, width) && i < |s.puts| && s.puts[i].Counting? && |s.present| < cap
    ensures WithinBound(StepPut(s, i, cap), cap, width)
  {
    var pending := Pending(StepPut(s, i, cap).puts);
    PendingIsSmall(StepPut(s, i, cap).puts);
    assert s.present + pending == s.present + (pending - s.present);
    SubsetCount(pending - s.present, pending);
  }

  /** Any other move adds no id to those present or about to land. */
  lemma NothingIsAdded(s: Site, m: Move, cap: nat, width: nat)
    requires !(m.Step? && m.put < |s.puts| && s.puts[m.put].Counting? && |s.present| < cap)
    ensures var s' := Next(s, m, cap, width); s'.present + Pending(s'.puts) <= s.present + Pending(s.puts)
    ensures |Next(s, m, cap, width).puts| <= if |s.puts| < width then width else |s.puts|
  {
    if m.Step? && m.put < |s.puts| {
      var rest := Without(s.puts, m.put);
      assert forall k | 0 <= k < |rest| :: rest[k] == s.puts[if k < m.put then k else k + 1];
    }
  }

  /**
   * From a store within the cap, in any interleaving of at most `width` puts and any deletes, the cards
   * present or about to land never number more than `cap + width - 1`; with one writer the cap is exact.
   */
  lemma {:induction false} OvershootIsBounded(s: Site, moves: seq<Move>, cap: nat, width: nat)
    requires width >= 1 && WithinBound(s, cap, width)
    ensures WithinBound(Run(s, moves, cap, width), cap, width)
    ensures |Run(s, moves, cap, width).present| <= cap + width - 1
    decreases |moves|
  {
    if |moves| > 0 {
      MoveKeepsBound(s, moves[0], cap, width);
      OvershootIsBounded(Next(s, moves[0], cap, width), moves[1..], cap, width);
    } else {
      SubsetCount(s.present, s.present + Pending(s.puts));
    }
  }

  // ---- the bound is reached ----

  lemma {:induction false} RunThen(s: Site, a: seq<Move>, b: seq<Move>, cap: nat, width: nat)
    ensures Run(s, a + b, cap, width) == Run(Run(s, a, cap, width), b, cap, width)
    decreases |a|
  {
    if |a| == 0 {
      assert a + b == b;
    } else {
      assert (a + b)[1..] == a[1..] + b;
      RunThen(Next(s, a[0], cap, width), a[1..], b, cap, width);
    }
  }

  function Landing(ids: seq<Id>): (puts: seq<PutCall>)
    ensures |puts| == |ids| && forall i | 0 <= i < |ids| :: puts[i] == Applying(ids[i])
  {
    seq(|ids|, i requires 0 <= i < |ids| => Applying(ids[i]))
  }

  /** Puts of new ids, each reading and counting before any lands. */
  lemma {:induction false} AllPassTheCap(present: set<Id>, ids: seq<Id>, cap: nat, width: nat) returns (moves: seq<Move>)
    requires |present| < cap && |ids| <= width && forall i | 0 <= i < |ids| :: ids[i] !in present
    ensures Run(Site(present, []), moves, cap, width) == Site(present, Landing(ids))
  {
    if |ids| == 0 {
      moves := [];
      assert Landing(ids) == [];
    } else {
      var n := |ids| - 1;
      var front := AllPassTheCap(present, ids[..n], cap, width);
      var more := [Begin(ids[n]), Step(n), Step(n)];
      moves := front + more;
      RunThen(Site(present, []), front, more, cap, width);
      OnePasses(present, ids[..n], ids[n], cap, width);
      assert Landing(ids[..n]) + [Applying(ids[n])] == Landing(ids);
    }
  }

  lemma OnePasses(present: set<Id>, before: seq<Id>, id: Id, cap: nat, width: nat)
    requires |present| < cap && |before| < width && id !in present
    ensures Run(Site(present, Landing(before)), [Begin(id), Step(|before|), Step(|before|)], cap, width)
      == Site(present, Landing(before) + [Applying(id)])
  {
    var n := |before|;
    var moves := [Begin(id), Step(n), Step(n)];
    var s0 := Site(present, Landing(before));
    var s1 := Site(present, Landing(before) + [Reading(id)]);
    var s2 := Site(present, Landing(before) + [Counting(id)]);
    var s3 := Site(present, Landing(before) + [Applying(id)]);
    assert moves[1..] == [Step(n), Step(n)] && moves[1..][1..] == [Step(n)] && moves[1..][1..][1..] == [];
    assert Next(s0, moves[0], cap, width) == s1;
    assert Next(s1, Step(n), cap, width) == s2 by {
      assert s1.puts[n := Counting(id)] == s2.puts;
    }
    assert Next(s2, Step(n), cap, width) == s3 by {
      assert s2.puts[n := Applying(id)] == s3.puts;
    }
    assert Run(s3, moves[1..][1..][1..], cap, width) == s3;
    assert Run(s2, moves[1..][1..], cap, width) == s3;
    assert Run(s1, moves[1..], cap, width) == s3;
  }

  lemma {:induction false} AllLand(present: set<Id>, ids: seq<Id>, cap: nat, width: nat) returns (moves: seq<Move>)
    ensures Run(Site(present, Landing(ids)), moves, cap, width) == Site(present + ToSet(ids), [])
    decreases |ids|
  {
    if |ids| == 0 {
      moves := [];
      assert Landing(ids) == [] && present + ToSet(ids) == present;
    } else {
      var rest := AllLand(present + {ids[0]}, ids[1..], cap, width);
      moves := [Step(0)] + rest;
      assert Without(Landing(ids), 0) == Landing(ids[1..]);
      assert Next(Site(present, Landing(ids)), Step(0), cap, width) == Site(present + {ids[0]}, Landing(ids[1..]));
      assert moves[1..] == rest;
      assert present + {ids[0]} + ToSet(ids[1..]) == present + ToSet(ids) by {
        FirstAndRest(ids);
      }
    }
  }

  lemma FirstAndRest(ids: seq<Id>)
    requires |ids| > 0
    ensures ToSet(ids) == {ids[0]} + ToSet(ids[1..])
  {
    assert forall x :: x in ids <==> x == ids[0] || x in ids[1..];
  }

  /** The bound is exact: a store one short of its cap, and `width` puts of new ids that overtake each other. */
  lemma BoundIsReached(present: set<Id>, ids: seq<Id>, cap: nat, width: nat) returns (moves: seq<Move>)
    requires |present| == cap - 1 && |ids| == width >= 1 && Distinct(ids)
    requires forall i | 0 <= i < |ids| :: ids[i] !in present
    ensures |Run(Site(present, []), moves, cap, width).present| == cap + width - 1
  {
    var passing := AllPassTheCap(present, ids, cap, width);
    var landing := AllLand(present, ids, cap, width);
    moves := passing + landing;
    RunThen(Site(present, []), passing, landing, cap, width);
    ListedCount(ids);
    var new' := ToSet(ids);
    assert |present + new'| == |present| + |new'| by {
      assert present !! new';
    }
  }
}
