/** What a config store holds, as its callers see it, and what a batch of writes does to it. */
module ConfigCards {
  import opened Outcomes
  import opened Segments

  newtype Byte = x: int | 0 <= x < 256
  type Blob = seq<Byte>

  datatype Key = Key(collection: string, tenant: string, id: string)

  datatype Card = Card(key: Key, blob: Blob)

  /** Cards in insertion order. */
  datatype Contents = Contents(tenants: set<string>, cards: seq<Card>)

  datatype Write =
    | EnsureTenant(tenant: string)
    | Put(key: Key, blob: Blob)
    | Delete(key: Key)
    | Swap(key: Key, expected: Option<Blob>, blob: Blob)

  datatype Error =
    | BadTenant(tenant: string) | BadId(id: string) | EmptyBlob(id: string) | NoTenant(tenant: string)
    | Conflict(key: Key) | TooBig | Full

  const EMPTY := Contents({}, [])

  function Find(cards: seq<Card>, key: Key): (r: Option<nat>)
    ensures r.Some? ==> r.value < |cards| && cards[r.value].key == key
    ensures r.None? ==> forall i | 0 <= i < |cards| :: cards[i].key != key
  {
    if |cards| == 0 then None
    else if cards[|cards| - 1].key == key then Some(|cards| - 1)
    else Find(cards[..|cards| - 1], key)
  }

  function Lookup(cards: seq<Card>, key: Key): Option<Blob> {
    match Find(cards, key)
    case Some(i) => Some(cards[i].blob)
    case None => None
  }

  /** A new card goes to the end; an old one keeps its place. */
  function Upsert(cards: seq<Card>, key: Key, blob: Blob): seq<Card> {
    match Find(cards, key)
    case Some(i) => cards[i := Card(key, blob)]
    case None => cards + [Card(key, blob)]
  }

  function Remove(cards: seq<Card>, key: Key): seq<Card> {
    match Find(cards, key)
    case Some(i) => cards[..i] + cards[i + 1..]
    case None => cards
  }

  function ApplyOne(db: Contents, w: Write): Contents {
    match w
    case EnsureTenant(tenant) => db.(tenants := db.tenants + {tenant})
    case Put(key, blob) => db.(cards := Upsert(db.cards, key, blob))
    case Delete(key) => db.(cards := Remove(db.cards, key))
    case Swap(key, _, blob) => db.(cards := Upsert(db.cards, key, blob))
  }

  function ApplyAll(db: Contents, ws: seq<Write>): Contents
    decreases |ws|
  {
    if |ws| == 0 then db else ApplyAll(ApplyOne(db, ws[0]), ws[1..])
  }

  /** What is wrong with one write, when `known` are the tenants that exist or have been ensured before it. */
  function WriteError(w: Write, known: set<string>): Option<Error> {
    if w.EnsureTenant? then
      if !SafeSegment(w.tenant) then Some(BadTenant(w.tenant)) else None
    else if !SafeSegment(w.key.tenant) then Some(BadTenant(w.key.tenant))
    else if !SafeSegment(w.key.id) then Some(BadId(w.key.id))
    else if w.Delete? then None
    else if w.blob == [] then Some(EmptyBlob(w.key.id))
    else if w.key.tenant !in known then Some(NoTenant(w.key.tenant))
    else None
  }

  /** The first error of the batch. */
  function BatchError(ws: seq<Write>, known: set<string>): Option<Error>
    decreases |ws|
  {
    if |ws| == 0 then None
    else if WriteError(ws[0], known).Some? then WriteError(ws[0], known)
    else BatchError(ws[1..], if ws[0].EnsureTenant? then known + {ws[0].tenant} else known)
  }

  /** The first swap whose expectation the given cards do not meet. */
  function FirstMismatch(ws: seq<Write>, cards: seq<Card>): Option<Error>
    decreases |ws|
  {
    if |ws| == 0 then None
    else if ws[0].Swap? && Lookup(cards, ws[0].key) != ws[0].expected then Some(Conflict(ws[0].key))
    else FirstMismatch(ws[1..], cards)
  }

  /** Every swap is judged on the state before the batch. */
  function ApplyJudgedBefore(db: Contents, ws: seq<Write>): Result<Contents, Error> {
    match BatchError(ws, db.tenants)
    case Some(e) => Err(e)
    case None =>
      match FirstMismatch(ws, db.cards)
      case Some(e) => Err(e)
      case None => Ok(ApplyAll(db, ws))
  }

  /** Each swap is judged on the state that the writes before it have left. */
  function ApplyWithin(db: Contents, ws: seq<Write>): Result<Contents, Error>
    decreases |ws|
  {
    if |ws| == 0 then Ok(db)
    else if ws[0].Swap? && Lookup(db.cards, ws[0].key) != ws[0].expected then Err(Conflict(ws[0].key))
    else ApplyWithin(ApplyOne(db, ws[0]), ws[1..])
  }

  function ApplyJudgedWithin(db: Contents, ws: seq<Write>): Result<Contents, Error> {
    match BatchError(ws, db.tenants)
    case Some(e) => Err(e)
    case None => ApplyWithin(db, ws)
  }

  // ---- reads ----

  /** The blobs of one collection of one tenant, in insertion order. */
  function ListOf(cards: seq<Card>, collection: string, tenant: string): seq<Blob> {
    if |cards| == 0 then []
    else
      var c := cards[|cards| - 1];
      ListOf(cards[..|cards| - 1], collection, tenant)
        + (if c.key.collection == collection && c.key.tenant == tenant then [c.blob] else [])
  }

  /** The tenants with a card in the collection. */
  function TenantsOf(cards: seq<Card>, collection: string): set<string> {
    set i | 0 <= i < |cards| && cards[i].key.collection == collection :: cards[i].key.tenant
  }

  // ---- what every store keeps ----

  ghost predicate DistinctKeys(cards: seq<Card>) {
    forall i, j | 0 <= i < j < |cards| :: cards[i].key != cards[j].key
  }

  ghost predicate CardOk(c: Card, tenants: set<string>) {
    c.blob != [] && c.key.tenant in tenants && SafeSegment(c.key.tenant) && SafeSegment(c.key.id)
  }

  /** One card a key; no card is empty or refers to a tenant that does not exist. */
  ghost predicate Sound(db: Contents) {
    DistinctKeys(db.cards) && forall i | 0 <= i < |db.cards| :: CardOk(db.cards[i], db.tenants)
  }

  lemma ApplyOneKeeps(db: Contents, w: Write, known: set<string>)
    requires Sound(db) && WriteError(w, known).None? && known == db.tenants
    ensures Sound(ApplyOne(db, w))
    ensures ApplyOne(db, w).tenants == if w.EnsureTenant? then known + {w.tenant} else known
  {
    if w.Delete? {
      RemoveKeeps(db, w.key);
    } else if !w.EnsureTenant? {
      UpsertKeeps(db, w.key, w.blob);
    }
  }

  lemma RemoveKeeps(db: Contents, key: Key)
    requires Sound(db)
    ensures Sound(db.(cards := Remove(db.cards, key)))
  {
    if Find(db.cards, key).Some? {
      var i := Find(db.cards, key).value;
      var after := Remove(db.cards, key);
      assert forall k | 0 <= k < |after| :: after[k] == db.cards[if k < i then k else k + 1];
    }
  }

  lemma UpsertKeeps(db: Contents, key: Key, blob: Blob)
    requires Sound(db) && CardOk(Card(key, blob), db.tenants)
    ensures Sound(db.(cards := Upsert(db.cards, key, blob)))
  {
  }

  /** A batch that passes the check leaves a sound store sound, whichever way its swaps are judged. */
  lemma {:induction false} ApplyAllKeeps(db: Contents, ws: seq<Write>)
    requires Sound(db) && BatchError(ws, db.tenants).None?
    ensures Sound(ApplyAll(db, ws))
    ensures db.tenants <= ApplyAll(db, ws).tenants
    decreases |ws|
  {
    if |ws| > 0 {
      ApplyOneKeeps(db, ws[0], db.tenants);
      ApplyAllKeeps(ApplyOne(db, ws[0]), ws[1..]);
    }
  }

  // ---- runs ----

  /** The contents after a sequence of batches; a rejected batch changes nothing. */
  function RunBatches(db: Contents, batches: seq<seq<Write>>): Contents {
    if |batches| == 0 then db
    else
      var before := RunBatches(db, batches[..|batches| - 1]);
      match ApplyJudgedBefore(before, batches[|batches| - 1])
      case Ok(after) => after
      case Err(_) => before
  }

  /** In every run from the empty store, every card's tenant exists and every key has one card. */
  lemma {:induction false} RunsAreSound(batches: seq<seq<Write>>)
    ensures Sound(RunBatches(EMPTY, batches))
  {
    if |batches| > 0 {
      RunsAreSound(batches[..|batches| - 1]);
      var before := RunBatches(EMPTY, batches[..|batches| - 1]);
      if ApplyJudgedBefore(before, batches[|batches| - 1]).Ok? {
        ApplyAllKeeps(before, batches[|batches| - 1]);
      }
    }
  }
}
