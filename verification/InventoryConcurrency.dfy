/** Any number of reservations running at once against one table, statement by statement.
    `SELECT ... FOR UPDATE` takes a row lock that is held to the end of the transaction; updates stay
    in the transaction's own view until it commits. */
module InventoryConcurrency {
  import opened Inventory

  type TxId = nat

  datatype Held = Nothing | Selected(stock: int)

  /** `done` items are behind the transaction; `held` is what it read of the next one. */
  datatype Tx = Tx(items: seq<OrderItem>, done: nat, held: Held, buffer: Table)

  datatype Db = Db(table: Table, locks: map<ProductId, TxId>, running: map<TxId, Tx>, committed: seq<seq<OrderItem>>)

  datatype Step = Begin(items: seq<OrderItem>) | SkipUntracked | SelectForUpdate | Update | Commit | Rollback

  function Visible(db: Db, tx: Tx, p: ProductId): Row
    requires p in tx.buffer || p in db.table
  {
    if p in tx.buffer then tx.buffer[p] else db.table[p]
  }

  function Release(locks: map<ProductId, TxId>, t: TxId): map<ProductId, TxId> {
    map p | p in locks && locks[p] != t :: locks[p]
  }

  /** Item `done` is next, and transaction `t` has not read its row yet. */
  predicate AtItem(tx: Tx) {
    tx.done < |tx.items| && tx.held == Nothing
  }

  predicate CanUpdate(db: Db, tx: Tx) {
    && tx.done < |tx.items| && tx.held.Selected?
    && (tx.items[tx.done].product in tx.buffer || tx.items[tx.done].product in db.table)
    && var q, row := tx.items[tx.done].quantity, Visible(db, tx, tx.items[tx.done].product);
       tx.held.stock >= q && Int32(q) && Int32(row.stock - q) && Int32(row.reserved + q)
  }

  /** A failed check or update, a deadlock, a timeout and a crash all end in `Rollback`. */
  predicate EnabledIn(db: Db, t: TxId, tx: Tx, step: Step) {
    match step
    case Begin(_) => false
    case SkipUntracked => AtItem(tx) && tx.items[tx.done].product !in db.table
    case SelectForUpdate =>
      && AtItem(tx) && tx.items[tx.done].product in db.table
      && (tx.items[tx.done].product in db.locks ==> db.locks[tx.items[tx.done].product] == t)
    case Update => CanUpdate(db, tx)
    case Commit => tx.done == |tx.items|
    case Rollback => true
  }

  predicate Enabled(db: Db, t: TxId, step: Step) {
    if t in db.running then EnabledIn(db, t, db.running[t], step) else step.Begin?
  }

  function Next(db: Db, t: TxId, step: Step): Db
    requires Enabled(db, t, step)
  {
    match step
    case Begin(items) => db.(running := db.running[t := Tx(items, 0, Nothing, map[])])
    case SkipUntracked =>
      var tx := db.running[t];
      db.(running := db.running[t := tx.(done := tx.done + 1)])
    case SelectForUpdate =>
      var tx := db.running[t];
      var p := tx.items[tx.done].product;
      db.(locks := db.locks[p := t], running := db.running[t := tx.(held := Selected(Visible(db, tx, p).stock))])
    case Update =>
      var tx := db.running[t];
      var item := tx.items[tx.done];
      var row := Visible(db, tx, item.product);
      var row' := Row(row.stock - item.quantity, row.reserved + item.quantity);
      db.(running := db.running[t := Tx(tx.items, tx.done + 1, Nothing, tx.buffer[item.product := row'])])
    case Commit =>
      Db(db.table + db.running[t].buffer, Release(db.locks, t), db.running - {t}, db.committed + [db.running[t].items])
    case Rollback => db.(locks := Release(db.locks, t), running := db.running - {t})
  }

  // --- The serial counterpart -------------------------------------------------------------------

  /** The table after running the orders one after the other, alone. */
  function Serial(table: Table, orders: seq<seq<OrderItem>>): Table {
    if orders == [] then table
    else Reduced(Serial(table, orders[..|orders| - 1]), orders[|orders| - 1])
  }

  /** ... where each of them goes through. */
  ghost predicate SeriallyFeasible(table: Table, orders: seq<seq<OrderItem>>) {
    orders != [] ==>
      var front := orders[..|orders| - 1];
      SeriallyFeasible(table, front) && Feasible(Serial(table, front), orders[|orders| - 1])
  }

  // --- What every step keeps --------------------------------------------------------------------

  /** A transaction has locked what it has written, and its view is a reservation of the items behind it
      on the committed table as it is now. */
  ghost predicate TxInv(db: Db, t: TxId, tx: Tx) {
    && tx.done <= |tx.items|
    && var behind := tx.items[..tx.done];
    && Feasible(db.table, behind)
    && (forall p :: p in tx.buffer <==> p in db.table && Mentions(behind, p))
    && (forall p :: p in tx.buffer ==>
          p in db.locks && db.locks[p] == t && tx.buffer[p] == Reduced(db.table, behind)[p])
    && (tx.held.Selected? ==>
          && tx.done < |tx.items|
          && var p := tx.items[tx.done].product;
          && p in db.table && p in db.locks && db.locks[p] == t
          && tx.held.stock == Visible(db, tx, p).stock)
  }

  ghost predicate Inv(initial: Table, db: Db) {
    && SeriallyFeasible(initial, db.committed)
    && db.table == Serial(initial, db.committed)
    && forall t :: t in db.running ==> TxInv(db, t, db.running[t])
  }

  /** Reservations look only at the rows their items mention. */
  lemma {:induction false} Frame(table: Table, table': Table, items: seq<OrderItem>)
    requires table.Keys == table'.Keys && Feasible(table, items)
    requires forall p :: p in table && Mentions(items, p) ==> table[p] == table'[p]
    ensures Feasible(table', items)
    ensures forall p :: p in table && Mentions(items, p) ==> Reduced(table, items)[p] == Reduced(table', items)[p]
  {
    forall i | 0 <= i < |items|
      ensures Fits(table', items, i)
    {
      assert Fits(table, items, i);
      assert Mentions(items, items[i].product);
    }
  }

  lemma {:induction false} MentionsNext(items: seq<OrderItem>, i: nat, p: ProductId)
    requires i < |items|
    ensures Mentions(items[..i + 1], p) <==> Mentions(items[..i], p) || items[i].product == p
  {
    assert items[..i + 1][i] == items[i];
    if Mentions(items[..i], p) {
      var k :| 0 <= k < i && items[..i][k].product == p;
      assert items[..i + 1][k].product == p;
    }
    if Mentions(items[..i + 1], p) {
      var k :| 0 <= k < i + 1 && items[..i + 1][k].product == p;
      assert k < i ==> items[..i][k].product == p;
    }
  }

  lemma {:induction false} SkipKeepsTx(db: Db, t: TxId)
    requires t in db.running && TxInv(db, t, db.running[t]) && Enabled(db, t, SkipUntracked)
    ensures var db' := Next(db, t, SkipUntracked); TxInv(db', t, db'.running[t])
  {
    var tx := db.running[t];
    TakeOne(db.table, tx.items, tx.done);
    ReducedTakesOne(db.table, tx.items, tx.done);
    MentionsNextOfAll(tx.items, tx.done);
  }

  lemma {:induction false} UpdateKeepsTx(db: Db, t: TxId)
    requires t in db.running && TxInv(db, t, db.running[t]) && Enabled(db, t, Update)
    ensures var db' := Next(db, t, Update); TxInv(db', t, db'.running[t])
  {
    var tx := db.running[t];
    UpdateTakesOne(db, t, tx);
    MentionsNextOfAll(tx.items, tx.done);
  }

  lemma {:induction false} UpdateTakesOne(db: Db, t: TxId, tx: Tx)
    requires TxInv(db, t, tx) && CanUpdate(db, tx)
    ensures
      var item := tx.items[tx.done];
      var row, after := Visible(db, tx, item.product), Reduced(db.table, tx.items[..tx.done + 1]);
      && Feasible(db.table, tx.items[..tx.done + 1])
      && after == Reduced(db.table, tx.items[..tx.done])[item.product := after[item.product]]
      && after[item.product] == Row(row.stock - item.quantity, row.reserved + item.quantity)
  {
    TakeOne(db.table, tx.items, tx.done);
    ReducedTakesOne(db.table, tx.items, tx.done);
    SeesReduced(db, t, tx);
  }

  /** A transaction sees a row it is about to change as its items so far have left it. */
  lemma {:induction false} SeesReduced(db: Db, t: TxId, tx: Tx)
    requires TxInv(db, t, tx) && tx.done < |tx.items| && tx.items[tx.done].product in db.table
    ensures
      var p := tx.items[tx.done].product;
      Visible(db, tx, p) == Reduced(db.table, tx.items[..tx.done])[p]
  {
    var p := tx.items[tx.done].product;
    if p !in tx.buffer {
      UnmentionedIsZero(tx.items[..tx.done], p);
    }
  }

  lemma {:induction false} MentionsNextOfAll(items: seq<OrderItem>, i: nat)
    requires i < |items|
    ensures forall p :: Mentions(items[..i + 1], p) <==> Mentions(items[..i], p) || items[i].product == p
  {
    forall p
      ensures Mentions(items[..i + 1], p) <==> Mentions(items[..i], p) || items[i].product == p
    {
      MentionsNext(items, i, p);
    }
  }

  /** A commit leaves the rows that another transaction has locked alone. */
  lemma {:induction false} CommitKeepsOthers(db: Db, t: TxId, u: TxId)
    requires t in db.running && u in db.running && t != u
    requires TxInv(db, t, db.running[t]) && TxInv(db, u, db.running[u]) && Enabled(db, t, Commit)
    ensures TxInv(Next(db, t, Commit), u, db.running[u])
  {
    var db', other := Next(db, t, Commit), db.running[u];
    var behind := other.items[..other.done];
    assert db'.table.Keys == db.table.Keys;
    forall p | p in db.table && p in db.locks && db.locks[p] == u
      ensures db'.table[p] == db.table[p] && p in db'.locks && db'.locks[p] == u
    {
      assert p !in db.running[t].buffer;
    }
    Frame(db.table, db'.table, behind);
  }

  lemma {:induction false} CommitIsSerial(db: Db, t: TxId)
    requires t in db.running && TxInv(db, t, db.running[t]) && Enabled(db, t, Commit)
    ensures Feasible(db.table, db.running[t].items)
    ensures Next(db, t, Commit).table == Reduced(db.table, db.running[t].items)
  {
    var tx := db.running[t];
    assert tx.items[..tx.done] == tx.items;
    forall p | p in db.table && p !in tx.buffer
      ensures Reduced(db.table, tx.items)[p] == db.table[p]
    {
      UnmentionedIsZero(tx.items, p);
    }
  }

  /** A step of one transaction that leaves table and committed log alone, and takes no lock that
      another holds, leaves the invariant of that other alone. */
  lemma {:induction false} OthersUntouched(db: Db, db': Db, t: TxId, u: TxId, tx: Tx)
    requires t != u && TxInv(db, u, tx)
    requires db'.table == db.table
    requires forall p :: p in db.locks && db.locks[p] == u ==> p in db'.locks && db'.locks[p] == u
    ensures TxInv(db', u, tx)
  {}

  lemma {:induction false} StepKeepsOwn(db: Db, t: TxId, step: Step)
    requires t in db.running ==> TxInv(db, t, db.running[t])
    requires Enabled(db, t, step)
    ensures var db' := Next(db, t, step); t in db'.running ==> TxInv(db', t, db'.running[t])
  {
    match step {
      case SkipUntracked => SkipKeepsTx(db, t);
      case Update => UpdateKeepsTx(db, t);
      case _ =>
    }
  }

  lemma {:induction false} StepKeepsOthers(db: Db, t: TxId, u: TxId, step: Step)
    requires t != u && u in db.running && TxInv(db, u, db.running[u])
    requires t in db.running ==> TxInv(db, t, db.running[t])
    requires Enabled(db, t, step)
    ensures TxInv(Next(db, t, step), u, db.running[u])
  {
    if step == Commit {
      CommitKeepsOthers(db, t, u);
    } else {
      OthersUntouched(db, Next(db, t, step), t, u, db.running[u]);
    }
  }

  lemma {:induction false} StepKeepsSerial(initial: Table, db: Db, t: TxId, step: Step)
    requires Inv(initial, db) && Enabled(db, t, step)
    ensures
      var db' := Next(db, t, step);
      SeriallyFeasible(initial, db'.committed) && db'.table == Serial(initial, db'.committed)
  {
    if step == Commit {
      CommitIsSerial(db, t);
      assert (db.committed + [db.running[t].items])[..|db.committed|] == db.committed;
    }
  }

  lemma {:induction false} StepKeepsInv(initial: Table, db: Db, t: TxId, step: Step)
    requires Inv(initial, db) && Enabled(db, t, step)
    ensures Inv(initial, Next(db, t, step))
  {
    var db' := Next(db, t, step);
    StepKeepsSerial(initial, db, t, step);
    forall u | u in db'.running
      ensures TxInv(db', u, db'.running[u])
    {
      if u == t {
        StepKeepsOwn(db, t, step);
      } else {
        StepKeepsOthers(db, t, u, step);
      }
    }
  }

  // --- Runs -------------------------------------------------------------------------------------

  function Start(table: Table): Db {
    Db(table, map[], map[], [])
  }

  /** `states` is an interleaving: each state follows from the one before by a step of some transaction. */
  ghost predicate IsRun(initial: Table, states: seq<Db>) {
    && states != [] && states[0] == Start(initial)
    && forall i :: 0 <= i < |states| - 1 ==> Follows(states[i], states[i + 1])
  }

  ghost predicate Follows(db: Db, db': Db) {
    exists t, step :: Enabled(db, t, step) && db' == Next(db, t, step)
  }

  lemma {:induction false} InvHolds(initial: Table, states: seq<Db>)
    requires IsRun(initial, states)
    ensures Inv(initial, states[|states| - 1])
  {
    if |states| > 1 {
      var front := states[..|states| - 1];
      forall i | 0 <= i < |front| - 1
        ensures Follows(front[i], front[i + 1])
      {
        assert Follows(states[i], states[i + 1]);
      }
      InvHolds(initial, front);
      var last := front[|front| - 1];
      assert Follows(states[|states| - 2], states[|states| - 1]);
      var t, step :| Enabled(last, t, step) && states[|states| - 1] == Next(last, t, step);
      StepKeepsInv(initial, last, t, step);
    }
  }

  /** In every interleaving the table equals the committed orders run alone, in commit order, each of
      them going through. */
  lemma {:induction false} EveryInterleavingIsSerial(initial: Table, states: seq<Db>)
    requires IsRun(initial, states)
    ensures
      var db := states[|states| - 1];
      db.table == Serial(initial, db.committed) && SeriallyFeasible(initial, db.committed)
  {
    InvHolds(initial, states);
  }

  function TotalOrdered(orders: seq<seq<OrderItem>>, p: ProductId): int {
    if orders == [] then 0
    else TotalOrdered(orders[..|orders| - 1], p) + Ordered(orders[|orders| - 1], p)
  }

  lemma {:induction false} SerialConserves(initial: Table, orders: seq<seq<OrderItem>>)
    requires SeriallyFeasible(initial, orders)
    ensures Serial(initial, orders).Keys == initial.Keys
    ensures forall p :: p in initial ==>
      var row := Serial(initial, orders)[p];
      && row.stock == initial[p].stock - TotalOrdered(orders, p)
      && row.reserved == initial[p].reserved + TotalOrdered(orders, p)
      && (initial[p].stock >= 0 ==> row.stock >= 0)
  {
    if orders != [] {
      var front, last := orders[..|orders| - 1], orders[|orders| - 1];
      SerialConserves(initial, front);
      forall p | p in initial
        ensures initial[p].stock >= 0 ==> Serial(initial, orders)[p].stock >= 0
      {
        ReservationConserves(Serial(initial, front), last, p);
      }
    }
  }

  /** In every reachable state, uncommitted work included nowhere: no product is lost or invented, its
      stock is what the committed orders leave, and it is never negative. */
  lemma {:induction false} StockIsConserved(initial: Table, states: seq<Db>)
    requires IsRun(initial, states)
    requires forall p :: p in initial ==> initial[p].stock >= 0
    ensures
      var db := states[|states| - 1];
      && db.table.Keys == initial.Keys
      && forall p :: p in initial ==>
        && db.table[p].stock + db.table[p].reserved == initial[p].stock + initial[p].reserved
        && db.table[p].reserved - initial[p].reserved == TotalOrdered(db.committed, p)
        && db.table[p].stock >= 0
  {
    EveryInterleavingIsSerial(initial, states);
    SerialConserves(initial, states[|states| - 1].committed);
  }
}
