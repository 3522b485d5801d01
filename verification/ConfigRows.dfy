/**
 * Cards stored under positions: how a table keyed by card, with a position column, reads in insertion order.
 *
 * The contract over cards is a list in insertion order. A store that keeps a map with positions has no such
 * list, so a ghost `order` carries it: the keys by ascending position, all below the next one to hand out.
 * The first part says what each write does to `order`: a new card goes to its end, an old card keeps its
 * place, a deleted one drops out.
 *
 * The second part is the reading side. A listing gathers the matching rows in whatever order the map gives
 * them and sorts them on the position. Positions are distinct, so there is one way to sort, and it is the
 * order of insertion.
 */
module ConfigRows {
  import opened Outcomes
  import opened ConfigCards

  datatype Cell = Cell(pos: nat, blob: Blob)

  type Table = map<Key, Cell>

  /** `order` lists the table's keys by position; every position is below `next`. */
  ghost predicate Ordered(table: Table, order: seq<Key>, next: nat) {
    && (forall i | 0 <= i < |order| :: order[i] in table)
    && (forall k | k in table :: k in order)
    && (forall i | 0 <= i < |order| :: table[order[i]].pos < next)
    && (forall i, j | 0 <= i < j < |order| :: table[order[i]].pos < table[order[j]].pos)
  }

  ghost function Cards(table: Table, order: seq<Key>): (cards: seq<Card>)
    requires forall i | 0 <= i < |order| :: order[i] in table
    ensures |cards| == |order|
    ensures forall i | 0 <= i < |order| :: cards[i] == Card(order[i], table[order[i]].blob)
  {
    seq(|order|, i requires 0 <= i < |order| => Card(order[i], table[order[i]].blob))
  }

  lemma FindInOrder(table: Table, order: seq<Key>, next: nat, key: Key)
    requires Ordered(table, order, next)
    ensures key in table <==> Find(Cards(table, order), key).Some?
    ensures key in table ==> order[Find(Cards(table, order), key).value] == key
    ensures Lookup(Cards(table, order), key) == if key in table then Some(table[key].blob) else None
    ensures DistinctKeys(Cards(table, order))
  {
    var cards := Cards(table, order);
    if key in table {
      var i :| 0 <= i < |order| && order[i] == key;
      assert cards[i].key == key;
    }
  }

  /** A new card takes a position past every other. */
  lemma InsertRow(table: Table, order: seq<Key>, next: nat, key: Key, blob: Blob, pos: nat)
    requires Ordered(table, order, next) && pos >= next && key !in table
    ensures Ordered(table[key := Cell(pos, blob)], order + [key], pos + 1)
    ensures Cards(table[key := Cell(pos, blob)], order + [key]) == Upsert(Cards(table, order), key, blob)
  {
    InsertedKeepsOrder(table, order, next, key, Cell(pos, blob));
    InsertedCards(table, order, next, key, blob, pos);
  }

  lemma InsertedKeepsOrder(table: Table, order: seq<Key>, next: nat, key: Key, cell: Cell)
    requires Ordered(table, order, next) && cell.pos >= next && key !in table
    ensures Ordered(table[key := cell], order + [key], cell.pos + 1)
  {
    var table' := table[key := cell];
    var order' := order + [key];
    assert order'[|order|] == key;
    forall i | 0 <= i < |order|
      ensures order'[i] == order[i] && order[i] in table && table'[order[i]] == table[order[i]]
    {
    }
    forall k | k in table'
      ensures k in order'
    {
      assert k == key || k in order;
    }
  }

  lemma InsertedCards(table: Table, order: seq<Key>, next: nat, key: Key, blob: Blob, pos: nat)
    requires Ordered(table, order, next) && key !in table
    requires forall i | 0 <= i < |order| :: order[i] in table[key := Cell(pos, blob)]
    ensures Cards(table[key := Cell(pos, blob)], order + [key]) == Upsert(Cards(table, order), key, blob)
  {
    FindInOrder(table, order, next, key);
    assert Cards(table[key := Cell(pos, blob)], order + [key]) == Cards(table, order) + [Card(key, blob)];
  }

  /** An old card keeps its position. */
  lemma ReplaceRow(table: Table, order: seq<Key>, next: nat, key: Key, blob: Blob)
    requires Ordered(table, order, next) && key in table
    ensures Ordered(table[key := Cell(table[key].pos, blob)], order, next)
    ensures Cards(table[key := Cell(table[key].pos, blob)], order) == Upsert(Cards(table, order), key, blob)
  {
    ReplacedKeepsOrder(table, order, next, key, Cell(table[key].pos, blob));
    hide Ordered;
    ReplacedCards(table, order, next, key, blob);
  }

  lemma ReplacedKeepsOrder(table: Table, order: seq<Key>, next: nat, key: Key, cell: Cell)
    requires Ordered(table, order, next) && key in table && cell.pos == table[key].pos
    ensures Ordered(table[key := cell], order, next)
  {
    assert forall i | 0 <= i < |order| :: table[key := cell][order[i]].pos == table[order[i]].pos;
  }

  lemma ReplacedCards(table: Table, order: seq<Key>, next: nat, key: Key, blob: Blob)
    requires Ordered(table, order, next) && key in table
    requires forall i | 0 <= i < |order| :: order[i] in table
    ensures Cards(table[key := Cell(table[key].pos, blob)], order) == Upsert(Cards(table, order), key, blob)
  {
    FindInOrder(table, order, next, key);
    var at := Find(Cards(table, order), key).value;
    assert forall i | 0 <= i < |order| && i != at :: order[i] != key;
    hide Ordered;
    assert Cards(table[key := Cell(table[key].pos, blob)], order) == Cards(table, order)[at := Card(key, blob)];
  }

  lemma DeleteRow(table: Table, order: seq<Key>, next: nat, key: Key) returns (order': seq<Key>)
    requires Ordered(table, order, next)
    ensures Ordered(table - {key}, order', next)
    ensures Cards(table - {key}, order') == Remove(Cards(table, order), key)
  {
    FindInOrder(table, order, next, key);
    if key in table {
      order' := DropRow(table, order, next, key, Find(Cards(table, order), key).value);
    } else {
      order' := order;
      assert table - {key} == table;
    }
  }

  lemma DropRow(table: Table, order: seq<Key>, next: nat, key: Key, at: nat) returns (order': seq<Key>)
    requires Ordered(table, order, next) && at < |order| && order[at] == key
    ensures Ordered(table - {key}, order', next)
    ensures Cards(table - {key}, order') == Cards(table, order)[..at] + Cards(table, order)[at + 1..]
  {
    order' := order[..at] + order[at + 1..];
    Picked(table, order, next, key, order', at);
    PickedCards(table, order, key, order', at);
  }

  lemma PickedCards(table: Table, order: seq<Key>, key: Key, order': seq<Key>, at: nat)
    requires at < |order| && order' == order[..at] + order[at + 1..]
    requires forall i | 0 <= i < |order| :: order[i] in table
    requires forall i | 0 <= i < |order'| :: order'[i] in table - {key}
    ensures Cards(table - {key}, order') == Cards(table, order)[..at] + Cards(table, order)[at + 1..]
  {
  }

  lemma Picked(table: Table, order: seq<Key>, next: nat, key: Key, order': seq<Key>, at: nat)
    requires Ordered(table, order, next) && at < |order| && order[at] == key && |order'| == |order| - 1
    requires forall i | 0 <= i < |order'| :: order'[i] == order[if i < at then i else i + 1]
    ensures Ordered(table - {key}, order', next)
  {
    var rest := table - {key};
    forall k | k in rest
      ensures k in order'
    {
      var i :| 0 <= i < |order| && order[i] == k;
      assert order'[if i < at then i else i - 1] == k;
    }
    forall i | 0 <= i < |order'|
      ensures order'[i] in rest && rest[order'[i]].pos < next
    {
      assert order[if i < at then i else i + 1] in table;
    }
    forall i, j | 0 <= i < j < |order'|
      ensures rest[order'[i]].pos < rest[order'[j]].pos
    {
      PickedAscends(table, order, next, order', at, i, j);
    }
  }

  lemma PickedAscends(table: Table, order: seq<Key>, next: nat, order': seq<Key>, at: nat, i: nat, j: nat)
    requires Ordered(table, order, next) && at < |order| && |order'| == |order| - 1 && i < j < |order'|
    requires forall i | 0 <= i < |order'| :: order'[i] == order[if i < at then i else i + 1]
    ensures order'[i] in table && order'[j] in table && table[order'[i]].pos < table[order'[j]].pos
  {
    var a, b := if i < at then i else i + 1, if j < at then j else j + 1;
    assert order'[i] == order[a] && order'[j] == order[b] && a < b;
  }

  // ---- reading a listing by sorting on the position ----

  ghost predicate Ascending(rows: seq<Cell>) {
    forall i, j | 0 <= i < j < |rows| :: rows[i].pos <= rows[j].pos
  }

  ghost predicate DistinctPositions(rows: seq<Cell>) {
    forall i, j | 0 <= i < j < |rows| :: rows[i].pos != rows[j].pos
  }

  lemma InFront(rows: seq<Cell>, c: Cell)
    requires |rows| > 0
    ensures c in rows <==> c == rows[0] || c in rows[1..]
  {
  }

  /** With distinct positions there is one way to sort. */
  lemma {:induction false} SortedOnce(a: seq<Cell>, b: seq<Cell>)
    requires Ascending(a) && Ascending(b) && DistinctPositions(a) && DistinctPositions(b)
    requires forall c :: c in a <==> c in b
    ensures a == b
  {
    assert |a| > 0 ==> a[0] in a;
    assert |b| > 0 ==> b[0] in b;
    if |a| > 0 && |b| > 0 {
      assert a[0] == b[0];
      forall c
        ensures c in a[1..] <==> c in b[1..]
      {
        InFront(a, c);
        InFront(b, c);
      }
      SortedOnce(a[1..], b[1..]);
      assert a == [a[0]] + a[1..] && b == [b[0]] + b[1..];
    }
  }

  /** The sort behind `list`. */
  method SortByPosition(rows: seq<Cell>) returns (sorted: seq<Cell>)
    ensures Ascending(sorted) && forall c :: c in sorted <==> c in rows
    ensures DistinctPositions(rows) ==> DistinctPositions(sorted)
  {
    sorted := [];
    for n := 0 to |rows|
      invariant Ascending(sorted) && forall c :: c in sorted <==> c in rows[..n]
      invariant DistinctPositions(rows) ==> DistinctPositions(sorted)
    {
      if DistinctPositions(rows) {
        assert forall i | 0 <= i < |sorted| :: sorted[i] in rows[..n];
      }
      assert rows[..n + 1] == rows[..n] + [rows[n]];
      sorted := InsertByPosition(sorted, rows[n]);
    }
    assert rows[..|rows|] == rows;
  }

  method InsertByPosition(rows: seq<Cell>, row: Cell) returns (r: seq<Cell>)
    requires Ascending(rows)
    ensures Ascending(r) && forall c :: c in r <==> c == row || c in rows
    ensures DistinctPositions(rows) && (forall i | 0 <= i < |rows| :: rows[i].pos != row.pos) ==> DistinctPositions(r)
  {
    var at := |rows|;
    while at > 0 && row.pos < rows[at - 1].pos
      invariant 0 <= at <= |rows|
      invariant forall i | at <= i < |rows| :: row.pos < rows[i].pos
    {
      at := at - 1;
    }
    r := rows[..at] + [row] + rows[at..];
    Inserted(rows, row, at, r);
    InsertedSorts(rows, row, at, r);
  }

  lemma InsertedSorts(rows: seq<Cell>, row: Cell, at: nat, r: seq<Cell>)
    requires at <= |rows| == |r| - 1 && Ascending(rows)
    requires forall i {:trigger r[i]} | 0 <= i < |r| :: r[i] == if i < at then rows[i] else if i == at then row else rows[i - 1]
    requires forall i | at <= i < |rows| :: row.pos < rows[i].pos
    requires at > 0 ==> rows[at - 1].pos <= row.pos
    ensures Ascending(r)
    ensures DistinctPositions(rows) && (forall i | 0 <= i < |rows| :: rows[i].pos != row.pos) ==> DistinctPositions(r)
  {
    assert forall i | 0 <= i < at :: rows[i].pos <= row.pos;
    forall i, j | 0 <= i < j < |r|
      ensures r[i].pos <= r[j].pos
    {
      if i < at < j {
        assert rows[i].pos <= rows[j - 1].pos;
      }
    }
    if DistinctPositions(rows) && forall i | 0 <= i < |rows| :: rows[i].pos != row.pos {
      forall i, j | 0 <= i < j < |r|
        ensures r[i].pos != r[j].pos
      {
        if i < at < j {
          assert rows[i].pos != rows[j - 1].pos;
        }
      }
    }
  }

  lemma Inserted(rows: seq<Cell>, row: Cell, at: nat, r: seq<Cell>)
    requires at <= |rows| && r == rows[..at] + [row] + rows[at..]
    ensures forall i {:trigger r[i]} | 0 <= i < |r| :: r[i] == if i < at then rows[i] else if i == at then row else rows[i - 1]
    ensures forall c :: c in r <==> c == row || c in rows
  {
    forall c | c in rows
      ensures c in r
    {
      var i :| 0 <= i < |rows| && rows[i] == c;
      assert r[if i < at then i else i + 1] == c;
    }
    assert r[at] == row;
  }

  predicate Belongs(key: Key, collection: string, tenant: string) {
    key.collection == collection && key.tenant == tenant
  }

  ghost predicate HeldUnder(table: Table, keys: set<Key>, collection: string, tenant: string, c: Cell) {
    exists k :: k in keys && k in table && Belongs(k, collection, tenant) && table[k] == c
  }

  /** The matching cells of some of the keys. */
  ghost predicate Gathered(table: Table, keys: set<Key>, collection: string, tenant: string, cells: seq<Cell>) {
    forall c :: c in cells <==> HeldUnder(table, keys, collection, tenant, c)
  }

  ghost function Blobs(cells: seq<Cell>): (blobs: seq<Blob>)
    ensures |blobs| == |cells|
  {
    seq(|cells|, i requires 0 <= i < |cells| => cells[i].blob)
  }

  /** The matching cells in key order. */
  ghost function CellsOf(table: Table, order: seq<Key>, collection: string, tenant: string): (cells: seq<Cell>)
    requires forall i | 0 <= i < |order| :: order[i] in table
  {
    if |order| == 0 then []
    else
      var k := order[|order| - 1];
      CellsOf(table, order[..|order| - 1], collection, tenant) + (if Belongs(k, collection, tenant) then [table[k]] else [])
  }

  lemma {:induction false} CellsAreTheListing(table: Table, order: seq<Key>, next: nat, collection: string, tenant: string)
    requires forall i | 0 <= i < |order| :: order[i] in table && table[order[i]].pos < next
    requires forall i, j | 0 <= i < j < |order| :: table[order[i]].pos < table[order[j]].pos
    ensures var cells := CellsOf(table, order, collection, tenant);
      && Ascending(cells) && DistinctPositions(cells)
      && (forall i | 0 <= i < |cells| :: cells[i].pos < next)
      && Blobs(cells) == ListOf(Cards(table, order), collection, tenant)
  {
    hide ListOf, Cards, Blobs;
    if |order| == 0 {
      NothingListed(table, order, collection, tenant);
    } else {
      var front := order[..|order| - 1];
      var last := order[|order| - 1];
      CellsAreTheListing(table, front, table[last].pos, collection, tenant);
      var before := CellsOf(table, front, collection, tenant);
      LastListed(table, order, collection, tenant);
      OneMoreBlob(before, table[last]);
      assert before + [] == before;
      assert Blobs(before) + [] == Blobs(before);
    }
  }

  lemma NothingListed(table: Table, order: seq<Key>, collection: string, tenant: string)
    requires order == []
    ensures Blobs(CellsOf(table, order, collection, tenant)) == ListOf(Cards(table, order), collection, tenant) == []
  {
  }

  lemma LastListed(table: Table, order: seq<Key>, collection: string, tenant: string)
    requires |order| > 0 && forall i | 0 <= i < |order| :: order[i] in table
    ensures var last := order[|order| - 1];
      ListOf(Cards(table, order), collection, tenant)
        == ListOf(Cards(table, order[..|order| - 1]), collection, tenant) + (if Belongs(last, collection, tenant) then [table[last].blob] else [])
  {
    assert Cards(table, order)[..|order| - 1] == Cards(table, order[..|order| - 1]);
  }

  lemma OneMoreBlob(cells: seq<Cell>, c: Cell)
    ensures Blobs(cells + [c]) == Blobs(cells) + [c.blob]
  {
  }

  lemma {:induction false} CellsAreGathered(table: Table, order: seq<Key>, collection: string, tenant: string)
    requires forall i | 0 <= i < |order| :: order[i] in table
    ensures Gathered(table, set i | 0 <= i < |order| :: order[i], collection, tenant, CellsOf(table, order, collection, tenant))
  {
    var keys := set i | 0 <= i < |order| :: order[i];
    if |order| > 0 {
      var front := order[..|order| - 1];
      var last := order[|order| - 1];
      CellsAreGathered(table, front, collection, tenant);
      var some := set i | 0 <= i < |front| :: front[i];
      assert keys == some + {last};
      forall c
        ensures c in CellsOf(table, order, collection, tenant) <==> HeldUnder(table, keys, collection, tenant, c)
      {
        OneMoreKey(table, some, last, collection, tenant, c);
      }
    }
  }

  lemma OneMoreKey(table: Table, keys: set<Key>, k: Key, collection: string, tenant: string, c: Cell)
    requires k in table
    ensures HeldUnder(table, keys + {k}, collection, tenant, c)
      <==> HeldUnder(table, keys, collection, tenant, c) || (Belongs(k, collection, tenant) && table[k] == c)
  {
  }

  /** However the cells were gathered, sorting them on the position gives the listing. */
  lemma SortedIsTheListing(table: Table, order: seq<Key>, next: nat, collection: string, tenant: string, sorted: seq<Cell>)
    requires Ordered(table, order, next)
    requires Gathered(table, table.Keys, collection, tenant, sorted) && Ascending(sorted) && DistinctPositions(sorted)
    ensures Blobs(sorted) == ListOf(Cards(table, order), collection, tenant)
  {
    CellsAreTheListing(table, order, next, collection, tenant);
    CellsAreGathered(table, order, collection, tenant);
    assert (set i | 0 <= i < |order| :: order[i]) == table.Keys;
    SortedOnce(sorted, CellsOf(table, order, collection, tenant));
  }

  /** `list` over a table with a position column: gather the matching rows, sort them, keep the blobs. */
  method ListTable(table: Table, collection: string, tenant: string, ghost order: seq<Key>, ghost next: nat)
    returns (blobs: seq<Blob>)
    requires Ordered(table, order, next)
    ensures blobs == ListOf(Cards(table, order), collection, tenant)
  {
    var rows := GatherCells(table, collection, tenant, order, next);
    var sorted := SortByPosition(rows);
    SortedIsTheListing(table, order, next, collection, tenant, sorted);
    blobs := seq(|sorted|, i requires 0 <= i < |sorted| => sorted[i].blob);
  }

  method GatherCells(table: Table, collection: string, tenant: string, ghost order: seq<Key>, ghost next: nat)
    returns (rows: seq<Cell>)
    requires Ordered(table, order, next)
    ensures Gathered(table, table.Keys, collection, tenant, rows) && DistinctPositions(rows)
  {
    rows := [];
    var left := table.Keys;
    while left != {}
      invariant left <= table.Keys && Harvest(table, table.Keys - left, collection, tenant, rows)
      decreases |left|
    {
      var k :| k in left;
      GatherStep(table, order, next, left, k, collection, tenant, rows);
      left := left - {k};
      if Belongs(k, collection, tenant) {
        rows := rows + [table[k]];
      }
    }
    assert table.Keys - left == table.Keys;
  }

  ghost predicate Harvest(table: Table, keys: set<Key>, collection: string, tenant: string, rows: seq<Cell>) {
    Gathered(table, keys, collection, tenant, rows) && DistinctPositions(rows)
  }

  lemma GatherStep(table: Table, order: seq<Key>, next: nat, left: set<Key>, k: Key, collection: string, tenant: string, rows: seq<Cell>)
    requires Ordered(table, order, next) && left <= table.Keys && k in left
    requires Harvest(table, table.Keys - left, collection, tenant, rows)
    ensures Harvest(table, table.Keys - (left - {k}), collection, tenant,
                    if Belongs(k, collection, tenant) then rows + [table[k]] else rows)
  {
    var done := table.Keys - left;
    KeyIsFresh(table, order, next, done, k, collection, tenant, rows);
    MoreGathered(table, done, k, collection, tenant, rows);
    assert table.Keys - (left - {k}) == done + {k};
  }

  lemma MoreGathered(table: Table, keys: set<Key>, k: Key, collection: string, tenant: string, rows: seq<Cell>)
    requires k in table && Gathered(table, keys, collection, tenant, rows)
    ensures Gathered(table, keys + {k}, collection, tenant, if Belongs(k, collection, tenant) then rows + [table[k]] else rows)
  {
    forall c
      ensures HeldUnder(table, keys + {k}, collection, tenant, c)
        <==> HeldUnder(table, keys, collection, tenant, c) || (Belongs(k, collection, tenant) && table[k] == c)
    {
      OneMoreKey(table, keys, k, collection, tenant, c);
    }
  }

  /** The cell of a key not yet visited has a position of its own. */
  lemma KeyIsFresh(table: Table, order: seq<Key>, next: nat, done: set<Key>, k: Key, collection: string, tenant: string, rows: seq<Cell>)
    requires Ordered(table, order, next) && done <= table.Keys && k in table && k !in done
    requires Gathered(table, done, collection, tenant, rows)
    ensures forall i | 0 <= i < |rows| :: rows[i].pos != table[k].pos
  {
    forall i | 0 <= i < |rows|
      ensures rows[i].pos != table[k].pos
    {
      assert HeldUnder(table, done, collection, tenant, rows[i]);
      var k' :| k' in done && k' in table && table[k'] == rows[i];
      var a :| 0 <= a < |order| && order[a] == k;
      var b :| 0 <= b < |order| && order[b] == k';
    }
  }
}
