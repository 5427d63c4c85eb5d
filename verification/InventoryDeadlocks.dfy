/** When concurrent reservations can block one another for good. Rows are locked in the order of the items. */
module InventoryDeadlocks {
  import opened Inventory
  import opened InventoryConcurrency
  import opened InventoryRuns

  /** `t` has to lock a row next that `u` holds. */
  predicate WaitsFor(db: Db, t: TxId, u: TxId) {
    && t in db.running && t != u && AtItem(db.running[t])
    && var p := db.running[t].items[db.running[t].done].product;
    && p in db.table && p in db.locks && db.locks[p] == u
  }

  /** Each of these transactions waits for another of them. */
  ghost predicate Deadlocked(db: Db, ts: set<TxId>) {
    ts != {} && forall t :: t in ts ==> WaitsWithin(db, t, ts)
  }

  ghost predicate WaitsWithin(db: Db, t: TxId, ts: set<TxId>) {
    exists u :: u in ts && WaitsFor(db, t, u)
  }

  // --- Who holds a lock --------------------------------------------------------------------------

  /** The transaction has come past the product, or is at it. */
  predicate Reached(tx: Tx, p: ProductId) {
    && tx.done <= |tx.items|
    && (Mentions(tx.items[..tx.done], p)
        || (tx.held.Selected? && tx.done < |tx.items| && tx.items[tx.done].product == p))
  }

  ghost predicate LockInv(db: Db) {
    forall p :: p in db.locks ==>
      p in db.table && db.locks[p] in db.running && Reached(db.running[db.locks[p]], p)
  }

  lemma {:induction false} StepKeepsLocks(db: Db, t: TxId, step: InventoryConcurrency.Step)
    requires LockInv(db) && Enabled(db, t, step)
    ensures LockInv(Next(db, t, step))
  {
    var db' := Next(db, t, step);
    if step == SkipUntracked || step == Update {
      MentionsNextOfAll(db.running[t].items, db.running[t].done);
    }
    forall p | p in db'.locks
      ensures p in db'.table && db'.locks[p] in db'.running && Reached(db'.running[db'.locks[p]], p)
    {
      assert p in db.locks || (step == SelectForUpdate && db'.locks[p] == t);
    }
  }

  lemma {:induction false} FollowsKeepsLocks(db: Db, db': Db)
    requires LockInv(db) && Follows(db, db')
    ensures LockInv(db')
  {
    var t, step :| Enabled(db, t, step) && db' == Next(db, t, step);
    StepKeepsLocks(db, t, step);
  }

  lemma {:induction false} LocksAreReached(initial: Table, states: seq<Db>)
    requires IsRun(initial, states)
    ensures LockInv(states[|states| - 1])
  {
    if |states| > 1 {
      var front := states[..|states| - 1];
      forall i | 0 <= i < |front| - 1
        ensures Follows(front[i], front[i + 1])
      {
        assert Follows(states[i], states[i + 1]);
      }
      LocksAreReached(initial, front);
      assert Follows(states[|states| - 2], states[|states| - 2 + 1]);
      FollowsKeepsLocks(states[|states| - 2], states[|states| - 1]);
    }
  }

  // --- One order for all -------------------------------------------------------------------------

  /** The tracked products of an order come by rising rank, repeats side by side. */
  ghost predicate Ranked(rank: ProductId -> int, table: Table, items: seq<OrderItem>) {
    forall i, j :: 0 <= i < j < |items| && items[i].product in table && items[j].product in table ==>
      items[i].product == items[j].product || rank(items[i].product) < rank(items[j].product)
  }

  ghost predicate AllRanked(rank: ProductId -> int, db: Db) {
    forall t :: t in db.running ==> Ranked(rank, db.table, db.running[t].items)
  }

  function NextRank(rank: ProductId -> int, db: Db, t: TxId): int {
    if t in db.running && AtItem(db.running[t]) then rank(db.running[t].items[db.running[t].done].product) else 0
  }

  /** Along a chain of waiting transactions the rank of what they wait for rises. */
  lemma {:induction false} WaitingClimbs(rank: ProductId -> int, db: Db, t: TxId, u: TxId, v: TxId)
    requires LockInv(db) && AllRanked(rank, db) && WaitsFor(db, t, u) && WaitsFor(db, u, v)
    ensures NextRank(rank, db, t) < NextRank(rank, db, u)
  {
    var p, tx := db.running[t].items[db.running[t].done].product, db.running[u];
    assert Reached(tx, p);
    var i :| 0 <= i < tx.done && tx.items[..tx.done][i].product == p;
    assert tx.items[i].product == p && Ranked(rank, db.table, tx.items);
  }

  lemma {:induction false} HighestRank(rank: ProductId -> int, db: Db, ts: set<TxId>) returns (top: TxId)
    requires ts != {}
    ensures top in ts && forall t :: t in ts ==> NextRank(rank, db, t) <= NextRank(rank, db, top)
    decreases |ts|
  {
    top :| top in ts;
    if ts != {top} {
      var rest := ts - {top};
      var other := HighestRank(rank, db, rest);
      assert forall t :: t in ts ==> t == top || t in rest;
      if NextRank(rank, db, top) < NextRank(rank, db, other) {
        top := other;
      }
    }
  }

  /** While the running orders list their tracked products in one common order, whatever it is, no reachable state
      is deadlocked. */
  lemma {:induction false} CommonOrderNeverDeadlocks(initial: Table, states: seq<Db>, rank: ProductId -> int,
                                                     ts: set<TxId>)
    requires IsRun(initial, states) && AllRanked(rank, states[|states| - 1])
    ensures !Deadlocked(states[|states| - 1], ts)
  {
    var db := states[|states| - 1];
    LocksAreReached(initial, states);
    if Deadlocked(db, ts) {
      var top := HighestRank(rank, db, ts);
      assert WaitsWithin(db, top, ts);
      var u :| u in ts && WaitsFor(db, top, u);
      assert WaitsWithin(db, u, ts);
      var v :| v in ts && WaitsFor(db, u, v);
      WaitingClimbs(rank, db, top, u, v);
    }
  }

  // --- Two orders --------------------------------------------------------------------------------

  /** After `i` items of the one and `j` of the other, which share no tracked product, each comes to a tracked
      product that the other has taken. */
  ghost predicate Crossing(table: Table, a: seq<OrderItem>, i: nat, b: seq<OrderItem>, j: nat) {
    && i < |a| && j < |b| && Feasible(table, a[..i]) && Feasible(table, b[..j])
    && a[i].product in table && Mentions(b[..j], a[i].product)
    && b[j].product in table && Mentions(a[..i], b[j].product)
    && forall p :: p in table ==> !(Mentions(a[..i], p) && Mentions(b[..j], p))
  }

  /** The two orders wait for each other, before anything has been committed. */
  ghost predicate Stuck(db: Db, a: seq<OrderItem>, b: seq<OrderItem>, t: TxId, u: TxId) {
    && db.committed == [] && t in db.running && u in db.running
    && db.running[t].items == a && db.running[u].items == b
    && WaitsFor(db, t, u) && WaitsFor(db, u, t)
  }

  lemma {:induction false} BothBegin(initial: Table, a: seq<OrderItem>, b: seq<OrderItem>) returns (states: seq<Db>)
    ensures IsRun(initial, states)
    ensures states[|states| - 1]
         == Db(initial, map[], map[0 := Tx(a, 0, Nothing, map[]), 1 := Tx(b, 0, Nothing, map[])], [])
  {
    states := [Start(initial)];
    ExtendRun(initial, states, 0, Begin(a));
    states := states + [Next(Start(initial), 0, Begin(a))];
    var db := states[|states| - 1];
    ExtendRun(initial, states, 1, Begin(b));
    states := states + [Next(db, 1, Begin(b))];
  }

  lemma {:induction false} CrossingGetsStuck(initial: Table, a: seq<OrderItem>, i: nat, b: seq<OrderItem>, j: nat)
    returns (states: seq<Db>)
    requires Crossing(initial, a, i, b, j)
    ensures IsRun(initial, states) && Stuck(states[|states| - 1], a, b, 0, 1)
  {
    states := BothBegin(initial, a, b);
    states := TakesUpTo(initial, states, 0, i);
    states := TakesUpTo(initial, states, 1, j);
    InvHolds(initial, states);
    var db := states[|states| - 1];
    assert TxInv(db, 0, db.running[0]) && TxInv(db, 1, db.running[1]);
    assert db.running[0].done == i && db.running[1].done == j;
  }

  lemma {:induction false} StuckIsCrossing(initial: Table, states: seq<Db>, a: seq<OrderItem>, b: seq<OrderItem>,
                                           t: TxId, u: TxId)
    requires IsRun(initial, states) && Stuck(states[|states| - 1], a, b, t, u)
    ensures
      var db := states[|states| - 1];
      Crossing(initial, a, db.running[t].done, b, db.running[u].done)
  {
    var db := states[|states| - 1];
    InvHolds(initial, states);
    LocksAreReached(initial, states);
    var i, j := db.running[t].done, db.running[u].done;
    assert TxInv(db, t, db.running[t]) && TxInv(db, u, db.running[u]) && db.table == initial;
    assert Reached(db.running[u], a[i].product) && Reached(db.running[t], b[j].product);
  }

  /** A run that ends with two transactions of these orders waiting for each other. */
  ghost predicate GetsStuck(initial: Table, states: seq<Db>, a: seq<OrderItem>, b: seq<OrderItem>, t: TxId, u: TxId) {
    IsRun(initial, states) && Stuck(states[|states| - 1], a, b, t, u)
  }

  /** Two orders alone can block each other for good exactly when they cross: each can take some of its items, and
      then comes to a product that the other has taken. */
  lemma {:induction false} DeadlockIff(initial: Table, a: seq<OrderItem>, b: seq<OrderItem>)
    ensures (exists states, t, u :: GetsStuck(initial, states, a, b, t, u))
       <==> (exists i: nat, j: nat :: Crossing(initial, a, i, b, j))
  {
    if i: nat, j: nat :| Crossing(initial, a, i, b, j) {
      var states := CrossingGetsStuck(initial, a, i, b, j);
      assert GetsStuck(initial, states, a, b, 0, 1);
    }
    if states, t, u :| GetsStuck(initial, states, a, b, t, u) {
      StuckIsCrossing(initial, states, a, b, t, u);
    }
  }

  /** Two products in stock, ordered in opposite order. */
  lemma {:induction false} OppositeOrdersCross(table: Table, p: ProductId, q: ProductId)
    requires p != q && p in table && q in table
    requires table[p].stock > 0 && Int32(table[p].stock) && Int32(table[p].reserved) && Int32(table[p].reserved + 1)
    requires table[q].stock > 0 && Int32(table[q].stock) && Int32(table[q].reserved) && Int32(table[q].reserved + 1)
    ensures Crossing(table, [OrderItem(p, 1), OrderItem(q, 1)], 1, [OrderItem(q, 1), OrderItem(p, 1)], 1)
  {
    OneFits(table, p);
    OneFits(table, q);
    assert [OrderItem(p, 1), OrderItem(q, 1)][..1] == [OrderItem(p, 1)];
    assert [OrderItem(q, 1), OrderItem(p, 1)][..1] == [OrderItem(q, 1)];
    assert [OrderItem(p, 1)][0].product == p && [OrderItem(q, 1)][0].product == q;
  }

  lemma {:induction false} OneFits(table: Table, p: ProductId)
    requires p in table && table[p].stock > 0
    requires Int32(table[p].stock) && Int32(table[p].reserved) && Int32(table[p].reserved + 1)
    ensures Feasible(table, [OrderItem(p, 1)])
  {
    var items := [OrderItem(p, 1)];
    assert items[..1] == items && items[..0] == [];
    TakeOne(table, items, 0);
  }
}
