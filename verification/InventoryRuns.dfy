/** Which histories concurrent reservations can produce: exactly the serial ones. */
module InventoryRuns {
  import opened Inventory
  import opened InventoryConcurrency

  // --- Taking the items of an order --------------------------------------------------------------

  lemma {:induction false} ExtendRun(initial: Table, states: seq<Db>, t: TxId, step: InventoryConcurrency.Step)
    requires IsRun(initial, states) && Enabled(states[|states| - 1], t, step)
    ensures IsRun(initial, states + [Next(states[|states| - 1], t, step)])
  {
    var next := Next(states[|states| - 1], t, step);
    var all := states + [next];
    assert Follows(states[|states| - 1], next);
    forall i | 0 <= i < |all| - 1
      ensures Follows(all[i], all[i + 1])
    {
      assert i < |states| - 1 ==> Follows(states[i], states[i + 1]);
    }
  }

  /** The state after `t` has taken its next item. */
  ghost predicate TookNext(db: Db, db': Db, t: TxId)
    requires t in db.running && AtItem(db.running[t])
  {
    var tx, p := db.running[t], db.running[t].items[db.running[t].done].product;
    && db'.table == db.table && db'.committed == db.committed
    && db'.locks == (if p in db.table then db.locks[p := t] else db.locks)
    && t in db'.running && db'.running == db.running[t := db'.running[t]]
    && db'.running[t].items == tx.items && db'.running[t].done == tx.done + 1 && db'.running[t].held == Nothing
  }

  lemma {:induction false} FittingCanUpdate(db: Db, t: TxId, tx: Tx)
    requires TxInv(db, t, tx) && tx.done < |tx.items| && tx.held.Selected? && Fits(db.table, tx.items, tx.done)
    ensures CanUpdate(db, tx)
  {
    TakeOne(db.table, tx.items, tx.done);
    SeesReduced(db, t, tx);
  }

  lemma {:induction false} TakesNext(initial: Table, states: seq<Db>, t: TxId) returns (more: seq<Db>)
    requires IsRun(initial, states) && t in states[|states| - 1].running
    requires
      var db, tx := states[|states| - 1], states[|states| - 1].running[t];
      && AtItem(tx) && Fits(db.table, tx.items, tx.done)
      && var p := tx.items[tx.done].product; p in db.table && p in db.locks ==> db.locks[p] == t
    ensures IsRun(initial, more) && TookNext(states[|states| - 1], more[|more| - 1], t)
  {
    var db, tx := states[|states| - 1], states[|states| - 1].running[t];
    if tx.items[tx.done].product in db.table {
      ExtendRun(initial, states, t, SelectForUpdate);
      var db1 := Next(db, t, SelectForUpdate);
      more := states + [db1];
      InvHolds(initial, more);
      FittingCanUpdate(db1, t, db1.running[t]);
      ExtendRun(initial, more, t, Update);
      more := more + [Next(db1, t, Update)];
    } else {
      ExtendRun(initial, states, t, SkipUntracked);
      more := states + [Next(db, t, SkipUntracked)];
    }
  }

  /** The state after `t` has taken items up to the `n`-th. */
  ghost predicate TookUpTo(db: Db, db': Db, t: TxId, n: nat)
    requires t in db.running && n <= |db.running[t].items|
  {
    && db'.table == db.table && db'.committed == db.committed
    && t in db'.running && db'.running == db.running[t := db'.running[t]]
    && db'.running[t].items == db.running[t].items && db'.running[t].done == n && db'.running[t].held == Nothing
    && (forall p :: p in db'.locks && db'.locks[p] != t ==> p in db.locks && db.locks[p] == db'.locks[p])
    && (forall p :: p in db'.locks && db'.locks[p] == t ==>
          (p in db.locks && db.locks[p] == t) || (p in db.table && Mentions(db.running[t].items[..n], p)))
  }

  ghost predicate IsFree(db: Db, t: TxId, items: seq<OrderItem>) {
    forall p :: p in db.table && Mentions(items, p) && p in db.locks ==> db.locks[p] == t
  }

  lemma {:induction false} TakesUpTo(initial: Table, states: seq<Db>, t: TxId, n: nat) returns (more: seq<Db>)
    requires IsRun(initial, states) && t in states[|states| - 1].running
    requires
      var db, tx := states[|states| - 1], states[|states| - 1].running[t];
      && tx.held == Nothing && tx.done <= n <= |tx.items|
      && Feasible(db.table, tx.items[..n]) && IsFree(db, t, tx.items[..n])
    ensures IsRun(initial, more) && TookUpTo(states[|states| - 1], more[|more| - 1], t, n)
    decreases n - states[|states| - 1].running[t].done
  {
    var db, tx := states[|states| - 1], states[|states| - 1].running[t];
    if tx.done == n {
      more := states;
    } else {
      var p := tx.items[tx.done].product;
      assert tx.items[..n][tx.done].product == p;
      assert tx.items[..n][..tx.done + 1] == tx.items[..tx.done + 1];
      assert Fits(db.table, tx.items[..n], tx.done);
      more := TakesNext(initial, states, t);
      more := TakesUpTo(initial, more, t, n);
    }
  }

  // --- Every serial history happens --------------------------------------------------------------

  /** Nothing is running and nothing is locked. */
  predicate IsIdle(db: Db) {
    db.running == map[] && db.locks == map[]
  }

  lemma {:induction false} OneBegins(initial: Table, states: seq<Db>, items: seq<OrderItem>) returns (more: seq<Db>)
    requires IsRun(initial, states) && IsIdle(states[|states| - 1])
    ensures IsRun(initial, more)
    ensures more[|more| - 1] == states[|states| - 1].(running := map[0 := Tx(items, 0, Nothing, map[])])
  {
    ExtendRun(initial, states, 0, Begin(items));
    more := states + [Next(states[|states| - 1], 0, Begin(items))];
  }

  /** A feasible order that runs alone takes all its items and commits. */
  lemma {:induction false} OneCommits(initial: Table, states: seq<Db>, items: seq<OrderItem>) returns (more: seq<Db>)
    requires IsRun(initial, states) && IsIdle(states[|states| - 1]) && Feasible(states[|states| - 1].table, items)
    ensures IsRun(initial, more) && IsIdle(more[|more| - 1])
    ensures more[|more| - 1].committed == states[|states| - 1].committed + [items]
  {
    more := OneBegins(initial, states, items);
    assert items[..|items|] == items;
    more := TakesUpTo(initial, more, 0, |items|);
    var db := more[|more| - 1];
    ExtendRun(initial, more, 0, Commit);
    more := more + [Next(db, 0, Commit)];
  }

  lemma {:induction false} SerialHappens(initial: Table, orders: seq<seq<OrderItem>>) returns (states: seq<Db>)
    requires SeriallyFeasible(initial, orders)
    ensures IsRun(initial, states) && IsIdle(states[|states| - 1]) && states[|states| - 1].committed == orders
  {
    if orders == [] {
      states := [Start(initial)];
    } else {
      var front, last := orders[..|orders| - 1], orders[|orders| - 1];
      states := SerialHappens(initial, front);
      EveryInterleavingIsSerial(initial, states);
      states := OneCommits(initial, states, last);
      assert front + [last] == orders;
    }
  }

  /** The orders committed in some interleaving, in this order, are exactly those that go through one after the other,
      alone. */
  lemma {:induction false} CommittedIff(initial: Table, orders: seq<seq<OrderItem>>)
    ensures (exists states: seq<Db> :: IsRun(initial, states) && states[|states| - 1].committed == orders)
       <==> SeriallyFeasible(initial, orders)
  {
    if SeriallyFeasible(initial, orders) {
      var states := SerialHappens(initial, orders);
    }
    forall states: seq<Db> | IsRun(initial, states) && states[|states| - 1].committed == orders
      ensures SeriallyFeasible(initial, orders)
    {
      EveryInterleavingIsSerial(initial, states);
    }
  }

  /** In particular an order alone commits in some run exactly if each of its items can be taken after the ones before
      it, which is when the worker commits it if no statement fails. */
  lemma {:induction false} CommitsAloneIff(initial: Table, items: seq<OrderItem>)
    ensures (exists states: seq<Db> :: IsRun(initial, states) && states[|states| - 1].committed == [items])
       <==> forall i :: 0 <= i < |items| ==> Fits(initial, items, i)
  {
    CommittedIff(initial, [items]);
    assert [items][..0] == [] && Serial(initial, []) == initial;
  }

  /** A transaction can be rolled back at any point, and leaves nothing behind. */
  lemma {:induction false} RollsBackAnytime(initial: Table, states: seq<Db>, t: TxId) returns (more: seq<Db>)
    requires IsRun(initial, states) && t in states[|states| - 1].running
    ensures IsRun(initial, more)
    ensures
      var db, db' := states[|states| - 1], more[|more| - 1];
      && db'.table == db.table && db'.committed == db.committed && db'.running == db.running - {t}
      && forall p :: p in db'.locks <==> p in db.locks && db.locks[p] != t
  {
    ExtendRun(initial, states, t, Rollback);
    more := states + [Next(states[|states| - 1], t, Rollback)];
  }
}
