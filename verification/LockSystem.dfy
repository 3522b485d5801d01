/**
 * Transactions as sequences of row locks, interleaved in every possible way. A lock is on the row at a
 * path of the tree; a transaction keeps what it has been granted until it ends.
 *
 * A transaction's requests are fixed when it begins, and are otherwise arbitrary, so a run covers every
 * answer that the transaction's reads could have given it on the way.
 */
module LockSystem {
  type Path = seq<nat>

  /** `KeyShare` is the lock that a foreign-key check takes on the row referred to. */
  datatype Lock = ForUpdate(row: Path) | KeyShare(row: Path)

  predicate Clash(a: Lock, b: Lock) {
    a.row == b.row && !(a.KeyShare? && b.KeyShare?)
  }

  // ---- the order that keeps transactions apart ----

  /** The row, or the row it is a child of, is already held. */
  predicate Under(held: seq<Lock>, l: Lock) {
    || ForUpdate(l.row) in held
    || (|l.row| >= 2 && ForUpdate(l.row[..|l.row| - 1]) in held)
  }

  /** Every request after the first is under what is held by then; a key share comes last. */
  ghost predicate Orderly(held: seq<Lock>, todo: seq<Lock>) {
    forall k | 0 <= k < |todo| ::
      if todo[k].KeyShare? then k == |todo| - 1
      else held + todo[..k] == [] || Under(held + todo[..k], todo[k])
  }

  lemma OrderlyThen(held: seq<Lock>, a: seq<Lock>, b: seq<Lock>)
    requires Orderly(held, a) && forall k | 0 <= k < |a| :: a[k].ForUpdate?
    requires Orderly(held + a, b)
    ensures Orderly(held, a + b)
  {
    forall k | 0 <= k < |a + b|
      ensures if (a + b)[k].KeyShare? then k == |a + b| - 1
              else held + (a + b)[..k] == [] || Under(held + (a + b)[..k], (a + b)[k])
    {
      if k < |a| {
        assert (a + b)[..k] == a[..k];
      } else {
        assert held + (a + b)[..k] == held + a + b[..k - |a|];
      }
    }
  }

  // ---- interleavings ----

  /** A transaction with what it holds, oldest first, and what it will still ask for. */
  datatype Tx = Caller(held: seq<Lock>, todo: seq<Lock>) | Sweeper(held: seq<Lock>)

  datatype Move =
    | Begin(program: seq<Lock>)      // a transaction starts
    | BeginSweep                     // a transaction whose statements pass over locked rows starts
    | Grant(tx: nat)                 // the next lock is free, and is granted
    | Sweep(tx: nat, row: Path)      // a sweeper takes a row, or passes over it
    | End(tx: nat)                   // commit or rollback

  predicate Asks(t: Tx) {
    t.Caller? && t.todo != []
  }

  predicate Blocks(t: Tx, l: Lock) {
    exists k | 0 <= k < |t.held| :: Clash(l, t.held[k])
  }

  predicate Free(s: seq<Tx>, i: nat, l: Lock) {
    forall j | 0 <= j < |s| && j != i :: !Blocks(s[j], l)
  }

  function Next(s: seq<Tx>, m: Move): seq<Tx> {
    match m
    case Begin(program) => s + [Caller([], program)]
    case BeginSweep => s + [Sweeper([])]
    case Grant(i) =>
      if i < |s| && Asks(s[i]) && Free(s, i, s[i].todo[0])
      then s[i := Caller(s[i].held + [s[i].todo[0]], s[i].todo[1..])] else s
    case Sweep(i, row) =>
      if i < |s| && s[i].Sweeper? && Free(s, i, ForUpdate(row)) then s[i := Sweeper(s[i].held + [ForUpdate(row)])] else s
    case End(i) => if i < |s| then s[i := Caller([], [])] else s
  }

  ghost predicate Lawful(moves: seq<Move>) {
    forall k | 0 <= k < |moves| && moves[k].Begin? :: Orderly([], moves[k].program)
  }

  /** No program takes a key share. */
  ghost predicate RowsOnly(moves: seq<Move>) {
    forall k | 0 <= k < |moves| && moves[k].Begin? :: AllForUpdate(moves[k].program)
  }

  predicate AllForUpdate(locks: seq<Lock>) {
    forall k | 0 <= k < |locks| :: locks[k].ForUpdate?
  }

  function Interleave(moves: seq<Move>): seq<Tx> {
    if |moves| == 0 then [] else Next(Interleave(moves[..|moves| - 1]), moves[|moves| - 1])
  }

  /** `i` cannot go on before `j` ends. */
  predicate WaitsFor(s: seq<Tx>, i: nat, j: nat) {
    i < |s| && j < |s| && i != j && Asks(s[i]) && Blocks(s[j], s[i].todo[0])
  }

  /** None of `group` can go on before another of `group` ends. A cycle of waits is such a group. */
  ghost predicate Deadlocked(s: seq<Tx>, group: set<nat>) {
    group != {} && forall i {:trigger HeldUp(s, group, i)} | i in group :: HeldUp(s, group, i)
  }

  ghost predicate HeldUp(s: seq<Tx>, group: set<nat>, i: nat) {
    exists j | j in group :: WaitsFor(s, i, j)
  }

  /** The pending request is outside everything its transaction holds. */
  predicate Escapes(t: Tx) {
    Asks(t) && t.held != [] && !Under(t.held, t.todo[0])
  }

  // ---- what every interleaving keeps ----

  /** What a transaction holds hangs together under its oldest lock. */
  ghost predicate Connected(held: seq<Lock>) {
    forall k | 0 <= k < |held| ::
      && held[k].ForUpdate? && held[0].row <= held[k].row
      && (held[k].row == held[0].row || (|held[k].row| >= 2 && ForUpdate(held[k].row[..|held[k].row| - 1]) in held))
  }

  ghost predicate TxOk(t: Tx) {
    Asks(t) ==> Connected(t.held) && Orderly(t.held, t.todo)
  }

  ghost predicate Exclusive(s: seq<Tx>) {
    forall i, j | 0 <= i < |s| && 0 <= j < |s| && i != j ::
      forall k | 0 <= k < |s[i].held| :: !Blocks(s[j], s[i].held[k])
  }

  ghost predicate SystemOk(s: seq<Tx>) {
    Exclusive(s) && forall i | 0 <= i < |s| :: TxOk(s[i])
  }

  lemma GrantKeepsTx(t: Tx)
    requires Asks(t) && TxOk(t)
    ensures TxOk(Caller(t.held + [t.todo[0]], t.todo[1..]))
  {
    if |t.todo| > 1 {
      assert t.held + t.todo[..0] == t.held;
      ConnectedThen(t.held, t.todo[0]);
      OrderlyTail(t.held, t.todo);
    }
  }

  lemma ConnectedThen(held: seq<Lock>, l: Lock)
    requires Connected(held) && l.ForUpdate? && (held == [] || Under(held, l))
    ensures Connected(held + [l])
  {
    if held != [] {
      HeldIsUnderFirst(held, l);
    }
    var more := held + [l];
    forall k | 0 <= k < |more|
      ensures more[k].ForUpdate? && more[0].row <= more[k].row
      ensures more[k].row == more[0].row || (|more[k].row| >= 2 && ForUpdate(more[k].row[..|more[k].row| - 1]) in more)
    {
      if k < |held| {
        assert more[k] == held[k];
      }
    }
  }

  lemma OrderlyTail(held: seq<Lock>, todo: seq<Lock>)
    requires todo != [] && Orderly(held, todo)
    ensures Orderly(held + [todo[0]], todo[1..])
  {
    hide Under;
    var rest := todo[1..];
    forall k | 0 <= k < |rest|
      ensures if rest[k].KeyShare? then k == |rest| - 1
              else held + [todo[0]] + rest[..k] == [] || Under(held + [todo[0]] + rest[..k], rest[k])
    {
      HeldOnTheWay(held, todo, k);
      assert rest[k] == todo[k + 1];
    }
  }

  lemma HeldOnTheWay(held: seq<Lock>, todo: seq<Lock>, k: nat)
    requires k + 1 <= |todo|
    ensures held + [todo[0]] + todo[1..][..k] == held + todo[..k + 1]
  {
    assert todo[..k + 1] == [todo[0]] + todo[1..][..k];
  }

  /** A row under what is held extends the oldest lock's path, and its parent is held unless it is that lock's row. */
  lemma HeldIsUnderFirst(held: seq<Lock>, l: Lock)
    requires held != [] && Connected(held) && Under(held, l)
    ensures held[0].row <= l.row
    ensures l.row == held[0].row || (|l.row| >= 2 && ForUpdate(l.row[..|l.row| - 1]) in held)
  {
    if ForUpdate(l.row) in held {
      var k :| 0 <= k < |held| && held[k] == ForUpdate(l.row);
    } else {
      var k :| 0 <= k < |held| && held[k] == ForUpdate(l.row[..|l.row| - 1]);
    }
  }

  lemma HoldKeepsExclusive(s: seq<Tx>, i: nat, l: Lock, t: Tx)
    requires Exclusive(s) && i < |s| && Free(s, i, l) && t.held == s[i].held + [l]
    ensures Exclusive(s[i := t])
  {
    var s' := s[i := t];
    forall a, b | 0 <= a < |s'| && 0 <= b < |s'| && a != b
      ensures forall k | 0 <= k < |s'[a].held| :: !Blocks(s'[b], s'[a].held[k])
    {
      if a != i && b == i {
        assert !Blocks(s[a], l);
        assert forall k | 0 <= k < |s[a].held| :: !Blocks(s[i], s[a].held[k]);
      } else if a == i {
        assert !Blocks(s[b], l);
      }
    }
  }

  lemma NextKeeps(s: seq<Tx>, m: Move)
    requires SystemOk(s) && (m.Begin? ==> Orderly([], m.program))
    ensures SystemOk(Next(s, m))
  {
    match m
    case Begin(program) => JoinKeeps(s, Caller([], program));
    case BeginSweep => JoinKeeps(s, Sweeper([]));
    case Grant(i) =>
      if i < |s| && Asks(s[i]) && Free(s, i, s[i].todo[0]) {
        hide TxOk, Exclusive, Free;
        GrantKeepsTx(s[i]);
        HoldKeepsExclusive(s, i, s[i].todo[0], Caller(s[i].held + [s[i].todo[0]], s[i].todo[1..]));
      }
    case Sweep(i, row) =>
      if i < |s| && s[i].Sweeper? && Free(s, i, ForUpdate(row)) {
        hide Exclusive, Free;
        HoldKeepsExclusive(s, i, ForUpdate(row), Sweeper(s[i].held + [ForUpdate(row)]));
      }
    case End(i) => if i < |s| { LeaveKeeps(s, i); }
  }

  lemma JoinKeeps(s: seq<Tx>, t: Tx)
    requires SystemOk(s) && t.held == [] && TxOk(t)
    ensures SystemOk(s + [t])
  {
    hide TxOk;
  }

  lemma LeaveKeeps(s: seq<Tx>, i: nat)
    requires SystemOk(s) && i < |s|
    ensures SystemOk(s[i := Caller([], [])])
  {
  }

  lemma {:induction false} InterleavingsAreOk(moves: seq<Move>)
    requires Lawful(moves)
    ensures SystemOk(Interleave(moves))
  {
    if |moves| > 0 {
      InterleavingsAreOk(moves[..|moves| - 1]);
      NextKeeps(Interleave(moves[..|moves| - 1]), moves[|moves| - 1]);
    }
  }

  lemma {:induction false} NoSharesAppear(moves: seq<Move>, i: nat)
    requires RowsOnly(moves) && i < |Interleave(moves)| && Interleave(moves)[i].Caller?
    ensures AllForUpdate(Interleave(moves)[i].todo)
  {
    if |moves| > 0 {
      var before := Interleave(moves[..|moves| - 1]);
      if i < |before| && before[i].Caller? {
        NoSharesAppear(moves[..|moves| - 1], i);
      }
    }
  }

  // ---- no deadlock ----

  /** How deep a transaction has gone: the depth of its oldest lock. */
  function Reach(t: Tx): nat {
    if t.held == [] then 0 else 1 + |t.held[0].row|
  }

  /** A waiting transaction whose request is in order waits for one that started strictly deeper. */
  lemma WaitsDeepen(s: seq<Tx>, i: nat, j: nat)
    requires SystemOk(s) && WaitsFor(s, i, j) && Asks(s[j])
    requires !Escapes(s[i])
    ensures Reach(s[i]) < Reach(s[j])
  {
    var want := s[i].todo[0];
    var k :| 0 <= k < |s[j].held| && Clash(want, s[j].held[k]);
    if s[i].held != [] {
      HeldIsUnderFirst(s[i].held, want);
      assert ForUpdate(want.row) !in s[i].held by {
        NotBothHold(s, i, j, ForUpdate(want.row), s[j].held[k]);
      }
      var up := ForUpdate(want.row[..|want.row| - 1]);
      assert up in s[i].held;
      assert up !in s[j].held by {
        NotBothHold(s, i, j, up, up);
      }
      assert s[j].held[k].row == s[j].held[0].row;
      assert s[i].held[0].row <= up.row by {
        var m :| 0 <= m < |s[i].held| && s[i].held[m] == up;
      }
    }
  }

  lemma NotBothHold(s: seq<Tx>, i: nat, j: nat, a: Lock, b: Lock)
    requires Exclusive(s) && i < |s| && j < |s| && i != j && Clash(a, b)
    ensures a in s[i].held ==> b !in s[j].held
  {
    if a in s[i].held {
      var m :| 0 <= m < |s[i].held| && s[i].held[m] == a;
      assert !Blocks(s[j], s[i].held[m]);
    }
  }

  lemma {:induction false} Deepest(s: seq<Tx>, group: set<nat>) returns (i: nat)
    requires group != {} && forall j | j in group :: j < |s|
    ensures i in group && forall j | j in group :: Reach(s[j]) <= Reach(s[i])
    decreases |group|
  {
    i :| i in group;
    if group != {i} {
      assert group - {i} != {};
      var rest := Deepest(s, group - {i});
      if Reach(s[i]) < Reach(s[rest]) {
        i := rest;
      }
    }
  }

  lemma GroupNeedsEscape(s: seq<Tx>, group: set<nat>)
    requires SystemOk(s) && Deadlocked(s, group)
    ensures exists i | i in group :: i < |s| && Escapes(s[i])
  {
    assert forall i | i in group :: i < |s| by {
      forall i | i in group
        ensures i < |s|
      {
        assert HeldUp(s, group, i);
      }
    }
    var i := Deepest(s, group);
    assert HeldUp(s, group, i);
    var j :| j in group && WaitsFor(s, i, j);
    assert HeldUp(s, group, j);
    if !Escapes(s[i]) {
      WaitsDeepen(s, i, j);
    }
  }

  /** In every interleaving, a deadlock has a transaction in it that asks outside what it holds. */
  lemma DeadlockNeedsEscape(moves: seq<Move>, group: set<nat>)
    requires Lawful(moves) && Deadlocked(Interleave(moves), group)
    ensures exists i | i in group :: i < |Interleave(moves)| && Escapes(Interleave(moves)[i]) && Interleave(moves)[i].todo[0].KeyShare?
  {
    var s := Interleave(moves);
    InterleavingsAreOk(moves);
    GroupNeedsEscape(s, group);
    var i :| i in group && i < |s| && Escapes(s[i]);
    EscapeIsShare(s[i]);
  }

  lemma EscapeIsShare(t: Tx)
    requires TxOk(t) && Escapes(t)
    ensures t.todo[0].KeyShare?
  {
    assert t.held + t.todo[..0] == t.held;
  }

  /** Programs of row locks alone never deadlock, in any interleaving. */
  lemma RowLocksNeverDeadlock(moves: seq<Move>, group: set<nat>)
    requires Lawful(moves) && RowsOnly(moves)
    ensures !Deadlocked(Interleave(moves), group)
  {
    if Deadlocked(Interleave(moves), group) {
      DeadlockNeedsEscape(moves, group);
      var i :| i in group && i < |Interleave(moves)| && Escapes(Interleave(moves)[i]) && Interleave(moves)[i].todo[0].KeyShare?;
      NoSharesAppear(moves, i);
    }
  }

  /** The next lock is free, or there is none left to wait for. */
  predicate CanMove(s: seq<Tx>, i: nat) {
    i < |s| && if Asks(s[i]) then Free(s, i, s[i].todo[0]) else s[i].held != []
  }

  /** When no one can move, all that wait are deadlocked. */
  lemma StuckIsDeadlock(s: seq<Tx>, group: set<nat>)
    requires forall m: nat :: !CanMove(s, m)
    requires group == set m: nat | m < |s| && Asks(s[m])
    ensures group == {} || Deadlocked(s, group)
  {
    forall m | m in group
      ensures HeldUp(s, group, m)
    {
      assert !CanMove(s, m);
      var j: nat :| j < |s| && j != m && Blocks(s[j], s[m].todo[0]);
      assert !CanMove(s, j);
      assert j in group && WaitsFor(s, m, j);
    }
  }

  /** While anyone waits, some transaction can take its next lock or commit. */
  lemma SomeoneMoves(moves: seq<Move>, i: nat) returns (k: nat)
    requires Lawful(moves) && RowsOnly(moves) && i < |Interleave(moves)| && Asks(Interleave(moves)[i])
    ensures CanMove(Interleave(moves), k)
  {
    var s := Interleave(moves);
    var group := set m: nat | m < |s| && Asks(s[m]);
    assert i in group;
    RowLocksNeverDeadlock(moves, group);
    if forall m: nat :: !CanMove(s, m) {
      StuckIsDeadlock(s, group);
    }
    k :| CanMove(s, k);
  }
}
