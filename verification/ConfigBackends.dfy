/**
 * The four stores behind one contract. The memory and file forms judge a batch's swaps on the state before
 * it; the two SQL forms judge each inside the transaction. They give out positions in four different ways.
 */
module ConfigBackends {
  import opened Outcomes
  import opened Collections
  import Texts
  import opened ConfigCards
  import opened ConfigRows

  type Status = Result<(), Error>

  /** Accepted as specified, or nothing has changed. */
  ghost predicate Lands(before: Contents, outcome: Result<Contents, Error>, after: Contents, r: Status) {
    match outcome
    case Ok(db) => r == Ok(()) && after == db
    case Err(e) => r == Err(e) && after == before
  }

  method CheckBatch(ws: seq<Write>, tenants: set<string>) returns (e: Option<Error>)
    ensures e == BatchError(ws, tenants)
  {
    var ensured: set<string> := {};
    assert tenants + ensured == tenants;
    for i := 0 to |ws|
      invariant BatchError(ws[i..], tenants + ensured) == BatchError(ws, tenants)
    {
      assert ws[i..][1..] == ws[i + 1..];
      e := WriteError(ws[i], tenants + ensured);
      if e.Some? {
        return;
      }
      if ws[i].EnsureTenant? {
        assert tenants + ensured + {ws[i].tenant} == tenants + (ensured + {ws[i].tenant});
        ensured := ensured + {ws[i].tenant};
      }
    }
    e := None;
  }

  function Current(table: Table, key: Key): Option<Blob> {
    if key in table then Some(table[key].blob) else None
  }

  /** An insert at `pos` that falls back to replacing the blob of a row that is already there. */
  method UpsertAt(table: Table, key: Key, blob: Blob, pos: nat, ghost order: seq<Key>, ghost next: nat)
    returns (table': Table, ghost order': seq<Key>)
    requires Ordered(table, order, next) && pos >= next
    ensures Ordered(table', order', pos + 1)
    ensures Cards(table', order') == Upsert(Cards(table, order), key, blob)
    ensures key in table ==> Ordered(table', order', next)
  {
    if key in table {
      ReplaceRow(table, order, next, key, blob);
      table', order' := table[key := Cell(table[key].pos, blob)], order;
    } else {
      InsertRow(table, order, next, key, blob, pos);
      table', order' := table[key := Cell(pos, blob)], order + [key];
    }
  }

  // ---- memory ----

  class MemoryBackend {
    var tenants: set<string>
    var cards: Table
    var nextPos: nat
    ghost var order: seq<Key>

    constructor ()
      ensures Valid() && Contents() == EMPTY
    {
      tenants, cards, nextPos, order := {}, map[], 0, [];
    }

    ghost predicate Valid()
      reads this
    {
      Ordered(cards, order, nextPos)
    }

    ghost function Contents(): Contents
      reads this
      requires Valid()
    {
      ConfigCards.Contents(tenants, Cards(cards, order))
    }

    method Get(key: Key) returns (blob: Option<Blob>)
      requires Valid()
      ensures blob == Lookup(Contents().cards, key)
    {
      FindInOrder(cards, order, nextPos, key);
      blob := Current(cards, key);
    }

    method List(collection: string, tenant: string) returns (blobs: seq<Blob>)
      requires Valid()
      ensures blobs == ListOf(Contents().cards, collection, tenant)
    {
      blobs := ListTable(cards, collection, tenant, order, nextPos);
    }

    method Count(collection: string, tenant: string) returns (n: nat)
      requires Valid()
      ensures n == |ListOf(Contents().cards, collection, tenant)|
    {
      var blobs := ListTable(cards, collection, tenant, order, nextPos);
      n := |blobs|;
    }

    method Tenants(collection: string) returns (listed: seq<string>)
      requires Valid()
      ensures Texts.Ascending(listed) && ToSet(listed) == TenantsOf(Contents().cards, collection)
    {
      var found := set k | k in cards && k.collection == collection :: k.tenant;
      TableTenants(cards, order, nextPos, collection);
      listed := Texts.Listed(found);
    }

    method Apply(ws: seq<Write>) returns (r: Status)
      requires Valid()
      modifies this
      ensures Valid()
      ensures Lands(old(Contents()), ApplyJudgedBefore(old(Contents()), ws), Contents(), r)
    {
      var e := CheckBatch(ws, tenants);
      if e.Some? {
        return Err(e.value);
      }
      ghost var before := Contents();
      for i := 0 to |ws|
        invariant unchanged(this)
        invariant FirstMismatch(ws[i..], before.cards) == FirstMismatch(ws, before.cards)
      {
        assert ws[i..][1..] == ws[i + 1..];
        if ws[i].Swap? {
          FindInOrder(cards, order, nextPos, ws[i].key);
          if Current(cards, ws[i].key) != ws[i].expected {
            return Err(Conflict(ws[i].key));
          }
        }
      }
      for i := 0 to |ws|
        invariant Valid()
        invariant ApplyAll(Contents(), ws[i..]) == ApplyAll(before, ws)
      {
        assert ws[i..][1..] == ws[i + 1..];
        Perform(ws[i]);
      }
      return Ok(());
    }

    method Perform(w: Write)
      requires Valid()
      modifies this
      ensures Valid() && Contents() == ApplyOne(old(Contents()), w)
    {
      if w.EnsureTenant? {
        tenants := tenants + {w.tenant};
      } else if w.Delete? {
        order := DeleteRow(cards, order, nextPos, w.key);
        cards := cards - {w.key};
      } else {
        var isNew := w.key !in cards;
        cards, order := UpsertAt(cards, w.key, w.blob, nextPos, order, nextPos);
        if isNew {
          nextPos := nextPos + 1;
        }
      }
    }
  }

  lemma TableTenants(table: Table, order: seq<Key>, next: nat, collection: string)
    requires Ordered(table, order, next)
    ensures (set k | k in table && k.collection == collection :: k.tenant) == TenantsOf(Cards(table, order), collection)
  {
    var cards := Cards(table, order);
    forall k | k in table && k.collection == collection
      ensures k.tenant in TenantsOf(cards, collection)
    {
      var i :| 0 <= i < |order| && order[i] == k;
      assert cards[i].key == k;
    }
    forall t | t in TenantsOf(cards, collection)
      ensures t in set k | k in table && k.collection == collection :: k.tenant
    {
      var i :| 0 <= i < |cards| && cards[i].key.collection == collection && cards[i].key.tenant == t;
      assert order[i] in table && order[i] == cards[i].key;
    }
  }

  // ---- file ----

  datatype Row = Row(key: Key, pos: nat, blob: Blob)

  datatype Bundle = Bundle(tenants: seq<string>, rows: seq<Row>)

  ghost predicate InFileOrder(rows: seq<Row>) {
    && (forall i, j | 0 <= i < j < |rows| :: rows[i].pos < rows[j].pos)
    && (forall i, j | 0 <= i < j < |rows| :: rows[i].key != rows[j].key)
  }

  ghost function RowCards(rows: seq<Row>): (cards: seq<Card>)
    ensures |cards| == |rows|
    ensures forall i | 0 <= i < |rows| :: cards[i] == Card(rows[i].key, rows[i].blob)
  {
    seq(|rows|, i requires 0 <= i < |rows| => Card(rows[i].key, rows[i].blob))
  }

  ghost function BundleContents(b: Bundle): Contents {
    ConfigCards.Contents((set t | t in b.tenants), RowCards(b.rows))
  }

  /** The first row under the key. */
  method FindRow(rows: seq<Row>, key: Key) returns (at: Option<nat>)
    requires InFileOrder(rows)
    ensures at == Find(RowCards(rows), key)
  {
    for i := 0 to |rows|
      invariant forall j | 0 <= j < i :: rows[j].key != key
    {
      if rows[i].key == key {
        assert RowCards(rows)[i].key == key;
        return Some(i);
      }
    }
    return None;
  }

  // The bundle that a batch makes of a bundle, as the file writes it.

  ghost function RowsWith(rows: seq<Row>, key: Key, blob: Blob, pos: nat): seq<Row> {
    match Find(RowCards(rows), key)
    case Some(i) => rows[i := rows[i].(blob := blob)]
    case None => rows + [Row(key, pos, blob)]
  }

  ghost function RowsLess(rows: seq<Row>, key: Key): seq<Row> {
    match Find(RowCards(rows), key)
    case Some(i) => rows[..i] + rows[i + 1..]
    case None => rows
  }

  ghost function WrittenOne(b: Bundle, w: Write, pos: nat): Bundle {
    if w.EnsureTenant? then (if w.tenant in b.tenants then b else b.(tenants := b.tenants + [w.tenant]))
    else if w.Delete? then b.(rows := RowsLess(b.rows, w.key))
    else b.(rows := RowsWith(b.rows, w.key, w.blob, pos))
  }

  /** Only a new card uses up a position. */
  ghost function NextPos(b: Bundle, w: Write, pos: nat): nat {
    if !w.EnsureTenant? && !w.Delete? && Find(RowCards(b.rows), w.key).None? then pos + 1 else pos
  }

  ghost function Written(b: Bundle, ws: seq<Write>, pos: nat): Bundle
    decreases |ws|
  {
    if |ws| == 0 then b else Written(WrittenOne(b, ws[0], pos), ws[1..], NextPos(b, ws[0], pos))
  }

  /** One past the position of the last row; the rows are in order. */
  ghost function FirstPos(rows: seq<Row>): nat {
    if |rows| == 0 then 0 else rows[|rows| - 1].pos + 1
  }

  ghost function BundleAfter(b: Bundle, ws: seq<Write>): Bundle {
    Written(b, ws, FirstPos(b.rows))
  }

  /** Every row but the key's. */
  method Retain(rows: seq<Row>, key: Key) returns (kept: seq<Row>)
    requires InFileOrder(rows)
    ensures kept == RowsLess(rows, key)
    ensures InFileOrder(kept) && RowCards(kept) == Remove(RowCards(rows), key)
    ensures forall k | 0 <= k < |kept| :: kept[k] in rows
  {
    hide InFileOrder, RowCards;
    ghost var at := Find(RowCards(rows), key);
    OnlyThere(rows, key, if at.Some? then at.value else |rows|);
    kept := Sift(rows, key, if at.Some? then at.value else |rows|);
    if at.Some? {
      RowsWithout(rows, at.value, kept);
    }
  }

  lemma NoneListed(collection: string, tenant: string)
    ensures ListOf(RowCards([]), collection, tenant) == []
  {
  }

  lemma NextListed(rows: seq<Row>, i: nat, collection: string, tenant: string)
    requires i < |rows|
    ensures ListOf(RowCards(rows[..i + 1]), collection, tenant)
      == ListOf(RowCards(rows[..i]), collection, tenant) + (if Belongs(rows[i].key, collection, tenant) then [rows[i].blob] else [])
  {
    assert RowCards(rows[..i + 1])[..i] == RowCards(rows[..i]);
  }

  method Sift(rows: seq<Row>, key: Key, ghost gone: nat) returns (kept: seq<Row>)
    requires gone <= |rows| && forall i | 0 <= i < |rows| :: rows[i].key == key <==> i == gone
    ensures kept == if gone < |rows| then rows[..gone] + rows[gone + 1..] else rows
  {
    kept := [];
    for i := 0 to |rows|
      invariant kept == if gone < i then rows[..gone] + rows[gone + 1..i] else rows[..i]
    {
      assert rows[..i + 1] == rows[..i] + [rows[i]];
      assert gone < i ==> rows[gone + 1..i + 1] == rows[gone + 1..i] + [rows[i]];
      if rows[i].key != key {
        kept := kept + [rows[i]];
      }
    }
  }

  lemma OnlyThere(rows: seq<Row>, key: Key, at: nat)
    requires InFileOrder(rows)
    requires at == match Find(RowCards(rows), key) case Some(i) => i case None => |rows|
    ensures forall i | 0 <= i < |rows| :: rows[i].key == key <==> i == at
  {
    forall i | 0 <= i < |rows|
      ensures rows[i].key == key <==> i == at
    {
      assert RowCards(rows)[i].key == rows[i].key;
    }
  }

  lemma RowsWithout(rows: seq<Row>, at: nat, kept: seq<Row>)
    requires InFileOrder(rows) && at < |rows| && kept == rows[..at] + rows[at + 1..]
    ensures InFileOrder(kept) && RowCards(kept) == RowCards(rows)[..at] + RowCards(rows)[at + 1..]
    ensures forall k | 0 <= k < |kept| :: kept[k] in rows
  {
    assert forall k | 0 <= k < |kept| :: kept[k] == rows[if k < at then k else k + 1];
  }

  class FileBackend {
    var stored: Option<Bundle>      // the file; `None` while it does not exist
    const size: Bundle -> nat       // the length of a bundle's text
    const cap: nat

    constructor (size: Bundle -> nat, cap: nat)
      ensures Valid() && Contents() == EMPTY && this.size == size && this.cap == cap
    {
      stored, this.size, this.cap := None, size, cap;
    }

    /** What is on disk is in order, and never more than a read accepts. */
    ghost predicate Valid()
      reads this
    {
      stored.Some? ==> InFileOrder(stored.value.rows) && size(stored.value) <= cap
    }

    function Load(): Bundle
      reads this
    {
      if stored.Some? then stored.value else Bundle([], [])
    }

    ghost function Contents(): Contents
      reads this
    {
      BundleContents(Load())
    }

    method Get(key: Key) returns (blob: Option<Blob>)
      requires Valid()
      ensures blob == Lookup(Contents().cards, key)
    {
      var rows := Load().rows;
      var at := FindRow(rows, key);
      blob := if at.Some? then Some(rows[at.value].blob) else None;
    }

    method List(collection: string, tenant: string) returns (blobs: seq<Blob>)
      requires Valid()
      ensures blobs == ListOf(Contents().cards, collection, tenant)
    {
      var cells := Matching(Load().rows, collection, tenant);
      var sorted := SortByPosition(cells);
      SortedOnce(sorted, cells);
      blobs := seq(|sorted|, i requires 0 <= i < |sorted| => sorted[i].blob);
    }

    static method Matching(rows: seq<Row>, collection: string, tenant: string) returns (cells: seq<Cell>)
      requires InFileOrder(rows)
      ensures Ascending(cells) && DistinctPositions(cells) && Blobs(cells) == ListOf(RowCards(rows), collection, tenant)
    {
      hide ListOf, RowCards;
      assert ListOf(RowCards(rows[..0]), collection, tenant) == [] by {
        NoneListed(collection, tenant);
      }
      cells := [];
      for i := 0 to |rows|
        invariant forall j, k | 0 <= j < |cells| && i <= k < |rows| :: cells[j].pos < rows[k].pos
        invariant forall j, k | 0 <= j < k < |cells| :: cells[j].pos < cells[k].pos
        invariant Blobs(cells) == ListOf(RowCards(rows[..i]), collection, tenant)
      {
        NextListed(rows, i, collection, tenant);
        if Belongs(rows[i].key, collection, tenant) {
          assert Blobs(cells + [Cell(rows[i].pos, rows[i].blob)]) == Blobs(cells) + [rows[i].blob];
          cells := cells + [Cell(rows[i].pos, rows[i].blob)];
        }
      }
      assert rows[..|rows|] == rows;
    }

    method Count(collection: string, tenant: string) returns (n: nat)
      requires Valid()
      ensures n == |ListOf(Contents().cards, collection, tenant)|
    {
      var cells := Matching(Load().rows, collection, tenant);
      n := |cells|;
    }

    method Tenants(collection: string) returns (listed: seq<string>)
      requires Valid()
      ensures Texts.Ascending(listed) && ToSet(listed) == TenantsOf(Contents().cards, collection)
    {
      var rows := Load().rows;
      var found: set<string> := {};
      for i := 0 to |rows|
        invariant found == set j | 0 <= j < i && rows[j].key.collection == collection :: rows[j].key.tenant
      {
        if rows[i].key.collection == collection {
          found := found + {rows[i].key.tenant};
        }
      }
      listed := Texts.Listed(found);
    }

    /** Judged as the memory form does, and then refused if and only if the bundle it makes is over the cap. */
    method Apply(ws: seq<Write>) returns (r: Status)
      requires Valid()
      modifies this`stored
      ensures Valid()
      ensures match ApplyJudgedBefore(old(Contents()), ws)
        case Err(e) => r == Err(e) && stored == old(stored)
        case Ok(db) =>
          var b := BundleAfter(old(Load()), ws);
          && BundleContents(b) == db
          && if size(b) <= cap then r == Ok(()) && stored == Some(b) else r == Err(TooBig) && stored == old(stored)
    {
      var bundle := Load();
      ghost var before := BundleContents(bundle);
      var e := CheckBatch(ws, (set t | t in bundle.tenants));
      if e.Some? {
        return Err(e.value);
      }
      for i := 0 to |ws|
        invariant unchanged(this)
        invariant FirstMismatch(ws[i..], before.cards) == FirstMismatch(ws, before.cards)
      {
        assert ws[i..][1..] == ws[i + 1..];
        if ws[i].Swap? {
          var at := FindRow(bundle.rows, ws[i].key);
          if (if at.Some? then Some(bundle.rows[at.value].blob) else None) != ws[i].expected {
            return Err(Conflict(ws[i].key));
          }
        }
      }
      var nextPos := NextPosition(bundle.rows);
      for i := 0 to |ws|
        invariant unchanged(this)
        invariant InFileOrder(bundle.rows) && forall j | 0 <= j < |bundle.rows| :: bundle.rows[j].pos < nextPos
        invariant ApplyAll(BundleContents(bundle), ws[i..]) == ApplyAll(before, ws)
        invariant Written(bundle, ws[i..], nextPos) == BundleAfter(Load(), ws)
      {
        assert ws[i..][1..] == ws[i + 1..];
        bundle, nextPos := Perform(bundle, ws[i], nextPos);
      }
      if size(bundle) > cap {
        return Err(TooBig);
      }
      stored := Some(bundle);
      return Ok(());
    }

    /** One past the largest position, or zero. */
    static method NextPosition(rows: seq<Row>) returns (next: nat)
      requires InFileOrder(rows)
      ensures forall j | 0 <= j < |rows| :: rows[j].pos < next
      ensures next == FirstPos(rows)
    {
      next := 0;
      for i := 0 to |rows|
        invariant forall j | 0 <= j < i :: rows[j].pos < next
        invariant next == 0 || exists j | 0 <= j < i :: rows[j].pos == next - 1
      {
        if rows[i].pos >= next {
          next := rows[i].pos + 1;
        }
      }
      if |rows| > 0 {
        var j :| 0 <= j < |rows| && rows[j].pos == next - 1;
        assert rows[|rows| - 1].pos < next;
      }
    }

    static method Perform(bundle: Bundle, w: Write, nextPos: nat) returns (b: Bundle, next: nat)
      requires InFileOrder(bundle.rows) && forall j | 0 <= j < |bundle.rows| :: bundle.rows[j].pos < nextPos
      ensures InFileOrder(b.rows) && forall j | 0 <= j < |b.rows| :: b.rows[j].pos < next
      ensures BundleContents(b) == ApplyOne(BundleContents(bundle), w)
      ensures b == WrittenOne(bundle, w, nextPos) && next == NextPos(bundle, w, nextPos)
    {
      b, next := bundle, nextPos;
      if w.EnsureTenant? {
        if w.tenant !in b.tenants {
          b := b.(tenants := b.tenants + [w.tenant]);
        }
      } else if w.Delete? {
        var rows := Retain(b.rows, w.key);
        b := b.(rows := rows);
      } else {
        var rows;
        rows, next := UpsertRows(b.rows, w.key, w.blob, next);
        b := b.(rows := rows);
      }
    }

    static method UpsertRows(rows: seq<Row>, key: Key, blob: Blob, nextPos: nat) returns (rows': seq<Row>, next: nat)
      requires InFileOrder(rows) && forall j | 0 <= j < |rows| :: rows[j].pos < nextPos
      ensures InFileOrder(rows') && forall j | 0 <= j < |rows'| :: rows'[j].pos < next
      ensures RowCards(rows') == Upsert(RowCards(rows), key, blob)
      ensures rows' == RowsWith(rows, key, blob, nextPos)
      ensures next == if Find(RowCards(rows), key).None? then nextPos + 1 else nextPos
    {
      next := nextPos;
      var at := FindRow(rows, key);
      if at.Some? {
        rows' := rows[at.value := rows[at.value].(blob := blob)];
      } else {
        assert forall j | 0 <= j < |rows| :: RowCards(rows)[j].key != key;
        rows' := rows + [Row(key, next, blob)];
        next := next + 1;
      }
      assert RowCards(rows') == Upsert(RowCards(rows), key, blob);
    }
  }

  // ---- SQLite ----

  class SqliteBackend {
    var tenants: set<string>
    var cards: Table
    ghost var order: seq<Key>
    ghost var bound: nat

    constructor ()
      ensures Valid() && Contents() == EMPTY
    {
      tenants, cards, order, bound := {}, map[], [], 0;
    }

    ghost predicate Valid()
      reads this
    {
      Ordered(cards, order, bound)
    }

    ghost function Contents(): Contents
      reads this
      requires Valid()
    {
      ConfigCards.Contents(tenants, Cards(cards, order))
    }

    /** `COALESCE(MAX(pos), -1) + 1` over the whole table. */
    static method NextPosition(table: Table) returns (next: nat)
      ensures forall k | k in table :: table[k].pos < next
      ensures next == 0 || exists k | k in table :: table[k].pos == next - 1
    {
      next := 0;
      var left := table.Keys;
      while left != {}
        invariant left <= table.Keys
        invariant forall k | k in table && k !in left :: table[k].pos < next
        invariant next == 0 || exists k | k in table :: table[k].pos == next - 1
        decreases |left|
      {
        var k :| k in left;
        left := left - {k};
        if table[k].pos >= next {
          next := table[k].pos + 1;
        }
      }
    }

    /** One write to the cards inside the transaction. */
    static method Perform(table: Table, w: Write, ghost known: set<string>, ghost rows: seq<Key>, ghost bound: nat)
      returns (r: Status, table': Table, ghost rows': seq<Key>, ghost bound': nat)
      requires !w.EnsureTenant? && Ordered(table, rows, bound)
      ensures if w.Swap? && Lookup(Cards(table, rows), w.key) != w.expected then r == Err(Conflict(w.key))
        else
          && r == Ok(()) && Ordered(table', rows', bound')
          && ConfigCards.Contents(known, Cards(table', rows')) == ApplyOne(ConfigCards.Contents(known, Cards(table, rows)), w)
    {
      table', rows', bound' := table, rows, bound;
      FindInOrder(table, rows, bound, w.key);
      if w.Delete? {
        rows' := DeleteRow(table, rows, bound, w.key);
        table' := table - {w.key};
      } else if w.Swap? && Current(table, w.key) != w.expected {
        return Err(Conflict(w.key)), table', rows', bound';
      } else {
        var pos := NextPosition(table);
        table', rows' := UpsertAt(table, w.key, w.blob, pos, rows, pos);
        bound' := pos + 1;
      }
      r := Ok(());
    }

    /** The whole batch in one transaction, on a copy that is dropped at the first mismatch. */
    method Apply(ws: seq<Write>) returns (r: Status)
      requires Valid()
      modifies this
      ensures Valid()
      ensures Lands(old(Contents()), ApplyJudgedWithin(old(Contents()), ws), Contents(), r)
    {
      var e := CheckBatch(ws, tenants);
      if e.Some? {
        return Err(e.value);
      }
      ghost var before := Contents();
      var txTenants, txCards := tenants, cards;
      ghost var txOrder, txBound := order, bound;
      for i := 0 to |ws|
        invariant unchanged(this) && Ordered(txCards, txOrder, txBound)
        invariant ApplyWithin(ConfigCards.Contents(txTenants, Cards(txCards, txOrder)), ws[i..]) == ApplyWithin(before, ws)
      {
        assert ws[i..][1..] == ws[i + 1..];
        if ws[i].EnsureTenant? {
          txTenants := txTenants + {ws[i].tenant};
        } else {
          var step;
          step, txCards, txOrder, txBound := Perform(txCards, ws[i], txTenants, txOrder, txBound);
          if step.Err? {
            return step;
          }
        }
      }
      tenants, cards, order, bound := txTenants, txCards, txOrder, txBound;
      return Ok(());
    }

    method Get(key: Key) returns (blob: Option<Blob>)
      requires Valid()
      ensures blob == Lookup(Contents().cards, key)
    {
      FindInOrder(cards, order, bound, key);
      blob := Current(cards, key);
    }

    method List(collection: string, tenant: string) returns (blobs: seq<Blob>)
      requires Valid()
      ensures blobs == ListOf(Contents().cards, collection, tenant)
    {
      blobs := ListTable(cards, collection, tenant, order, bound);
    }
  }

  // ---- Postgres ----

  class PgBackend {
    var tenants: set<string>
    var cards: Table
    var sequence: nat          // the identity sequence; a rollback does not return its values
    ghost var order: seq<Key>

    constructor ()
      ensures Valid() && Contents() == EMPTY
    {
      tenants, cards, sequence, order := {}, map[], 1, [];
    }

    ghost predicate Valid()
      reads this
    {
      Ordered(cards, order, sequence)
    }

    ghost function Contents(): Contents
      reads this
      requires Valid()
    {
      ConfigCards.Contents(tenants, Cards(cards, order))
    }

    method Apply(ws: seq<Write>) returns (r: Status)
      requires Valid()
      modifies this
      ensures Valid()
      ensures Lands(old(Contents()), ApplyJudgedWithin(old(Contents()), ws), Contents(), r)
    {
      var e := CheckBatch(ws, tenants);
      if e.Some? {
        return Err(e.value);
      }
      ghost var before := Contents();
      var txTenants, txCards := tenants, cards;
      ghost var txOrder := order;
      for i := 0 to |ws|
        invariant unchanged(`tenants) && unchanged(`cards) && unchanged(`order) && old(sequence) <= sequence
        invariant Ordered(txCards, txOrder, sequence)
        invariant ApplyWithin(ConfigCards.Contents(txTenants, Cards(txCards, txOrder)), ws[i..]) == ApplyWithin(before, ws)
      {
        assert ws[i..][1..] == ws[i + 1..];
        if ws[i].EnsureTenant? {
          txTenants := txTenants + {ws[i].tenant};
        } else {
          var step;
          step, txCards, txOrder := Perform(txCards, ws[i], txTenants, txOrder);
          if step.Err? {
            return step;
          }
        }
      }
      tenants, cards, order := txTenants, txCards, txOrder;
      return Ok(());
    }

    /** One write to the cards inside the transaction; the sequence moves even when the write is dropped. */
    method Perform(table: Table, w: Write, ghost known: set<string>, ghost rows: seq<Key>)
      returns (r: Status, table': Table, ghost rows': seq<Key>)
      requires !w.EnsureTenant? && Ordered(table, rows, sequence)
      modifies this`sequence
      ensures old(sequence) <= sequence
      ensures var mismatch := w.Swap? && Lookup(Cards(table, rows), w.key) != w.expected;
        if mismatch then r == Err(Conflict(w.key))
        else
          && r == Ok(()) && Ordered(table', rows', sequence)
          && ConfigCards.Contents(known, Cards(table', rows')) == ApplyOne(ConfigCards.Contents(known, Cards(table, rows)), w)
    {
      table', rows' := table, rows;
      FindInOrder(table, rows, sequence, w.key);
      if w.Delete? {
        rows' := DeleteRow(table, rows, sequence, w.key);
        table' := table - {w.key};
        return Ok(()), table', rows';
      }
      if w.Swap? && w.expected.Some? {
        // the row is locked, compared and replaced in place
        if Current(table, w.key) != w.expected {
          return Err(Conflict(w.key)), table', rows';
        }
        ReplaceRow(table, rows, sequence, w.key, w.blob);
        table' := table[w.key := Cell(table[w.key].pos, w.blob)];
        return Ok(()), table', rows';
      }
      var pos := sequence;
      sequence := sequence + 1;
      if w.Swap? && w.key in table {
        // insert, or do nothing when the key is taken
        return Err(Conflict(w.key)), table', rows';
      }
      table', rows' := UpsertAt(table, w.key, w.blob, pos, rows, pos);
      return Ok(()), table', rows';
    }

    method List(collection: string, tenant: string) returns (blobs: seq<Blob>)
      requires Valid()
      ensures blobs == ListOf(Contents().cards, collection, tenant)
    {
      blobs := ListTable(cards, collection, tenant, order, sequence);
    }
  }

  // ---- one contract ----

  /** The file's bundle after a sequence of batches that all fit; a rejected batch writes nothing. */
  ghost function BundleRun(batches: seq<seq<Write>>): Bundle {
    if |batches| == 0 then Bundle([], [])
    else
      var before := BundleRun(batches[..|batches| - 1]);
      var ws := batches[|batches| - 1];
      if ApplyJudgedBefore(BundleContents(before), ws).Ok? then BundleAfter(before, ws) else before
  }

  /** The batch is rejected for what it holds, or makes a bundle within the cap. */
  ghost predicate Fits(batches: seq<seq<Write>>, k: nat, size: Bundle -> nat, cap: nat)
    requires k < |batches|
  {
    var before := BundleRun(batches[..k]);
    ApplyJudgedBefore(BundleContents(before), batches[k]).Ok? ==> size(BundleAfter(before, batches[k])) <= cap
  }

  lemma NoBatchYet()
    ensures RunBatches(EMPTY, []) == EMPTY && BundleRun([]) == Bundle([], []) && BundleContents(Bundle([], [])) == EMPTY
  {
  }

  lemma OneBatchMore(batches: seq<seq<Write>>, i: nat)
    requires i < |batches|
    ensures var before := RunBatches(EMPTY, batches[..i]);
      RunBatches(EMPTY, batches[..i + 1])
        == match ApplyJudgedBefore(before, batches[i]) case Ok(after) => after case Err(_) => before
    ensures var before := BundleRun(batches[..i]);
      BundleRun(batches[..i + 1])
        == if ApplyJudgedBefore(BundleContents(before), batches[i]).Ok? then BundleAfter(before, batches[i]) else before
  {
    assert batches[..i + 1][..i] == batches[..i];
  }

  /** One batch to both; they differ only when the file's bundle is over the cap. */
  method ApplyBoth(memory: MemoryBackend, file: FileBackend, ws: seq<Write>) returns (a: Status, b: Status)
    requires memory.Valid() && file.Valid() && memory.Contents() == file.Contents()
    modifies memory, file
    ensures memory.Valid() && file.Valid()
    ensures match ApplyJudgedBefore(old(file.Contents()), ws)
      case Err(e) =>
        a == b == Err(e) && e != TooBig && file.Load() == old(file.Load()) && memory.Contents() == file.Contents()
      case Ok(db) =>
        var after := BundleAfter(old(file.Load()), ws);
        && a == Ok(()) && memory.Contents() == db
        && if file.size(after) <= file.cap then b == Ok(()) && file.Load() == after && file.Contents() == db
           else b == Err(TooBig) && file.Load() == old(file.Load())
  {
    NeverTooBig(memory.Contents(), ws);
    a := memory.Apply(ws);
    b := file.Apply(ws);
  }

  /**
   * The memory and the file form side by side over a sequence of batches, up to the first one whose bundle is
   * over the cap, if there is one: both give the same replies and hold the same cards in the same order. The
   * file refuses exactly that batch, for its size, and keeps what it held.
   */
  method RunBoth(memory: MemoryBackend, file: FileBackend, batches: seq<seq<Write>>)
    returns (done: nat, fromMemory: seq<Status>, fromFile: seq<Status>)
    requires memory.Valid() && file.Valid() && memory.Contents() == EMPTY && file.Load() == Bundle([], [])
    modifies memory, file
    ensures memory.Valid() && file.Valid() && done <= |batches|
    ensures forall k | 0 <= k < done :: Fits(batches, k, file.size, file.cap)
    ensures done < |batches| ==> !Fits(batches, done, file.size, file.cap)
    ensures |fromMemory| == |fromFile| == if done < |batches| then done + 1 else done
    ensures forall k | 0 <= k < done :: fromMemory[k] == fromFile[k]
    ensures done < |batches| ==> fromMemory[done] == Ok(()) && fromFile[done] == Err(TooBig)
    ensures file.Load() == BundleRun(batches[..done])
    ensures file.Contents() == RunBatches(EMPTY, batches[..done])
    ensures memory.Contents() == RunBatches(EMPTY, batches[..|fromMemory|])
  {
    hide RunBatches, BundleRun, ApplyJudgedBefore, BundleAfter;
    fromMemory, fromFile := [], [];
    NoBatchYet();
    assert batches[..0] == [];
    for i := 0 to |batches|
      invariant memory.Valid() && file.Valid()
      invariant memory.Contents() == file.Contents() == RunBatches(EMPTY, batches[..i])
      invariant file.Load() == BundleRun(batches[..i])
      invariant |fromMemory| == |fromFile| == i && forall k | 0 <= k < i :: fromMemory[k] == fromFile[k]
      invariant forall k | 0 <= k < i :: Fits(batches, k, file.size, file.cap)
    {
      OneBatchMore(batches, i);
      var a, b := ApplyBoth(memory, file, batches[i]);
      fromMemory, fromFile := fromMemory + [a], fromFile + [b];
      if b == Err(TooBig) {
        return i, fromMemory, fromFile;
      }
    }
    done := |batches|;
    assert batches[..done] == batches;
  }

  lemma {:induction false} NoBatchErrorIsTooBig(ws: seq<Write>, known: set<string>)
    ensures BatchError(ws, known) != Some(TooBig)
    decreases |ws|
  {
    if |ws| > 0 {
      NoBatchErrorIsTooBig(ws[1..], if ws[0].EnsureTenant? then known + {ws[0].tenant} else known);
    }
  }

  lemma {:induction false} NoMismatchIsTooBig(ws: seq<Write>, cards: seq<Card>)
    ensures FirstMismatch(ws, cards) != Some(TooBig)
    decreases |ws|
  {
    if |ws| > 0 {
      NoMismatchIsTooBig(ws[1..], cards);
    }
  }

  /** Only the file's size limit gives this error. */
  lemma NeverTooBig(db: Contents, ws: seq<Write>)
    ensures ApplyJudgedBefore(db, ws) != Err(TooBig)
  {
    NoBatchErrorIsTooBig(ws, db.tenants);
    NoMismatchIsTooBig(ws, db.cards);
  }
}
