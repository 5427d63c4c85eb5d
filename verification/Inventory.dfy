/** Stock reservation for one order: all of its items or none, in one transaction. */
module Inventory {
  type ProductId = string

  datatype Row = Row(stock: int, reserved: int)
  type Table = map<ProductId, Row>

  datatype OrderItem = OrderItem(product: ProductId, quantity: int)

  /** Errors the database may report on its own. */
  datatype Fault = NoFault | BeginFails | QueryFails(at: nat) | CommitFails

  datatype Outcome =
    | Committed
    | Insufficient(product: ProductId, have: int, need: int)
    | OutOfRange(product: ProductId)
    | DatabaseError

  /** The columns are 32-bit integers; an update outside the range is an error. */
  predicate Int32(n: int) {
    -0x8000_0000 <= n < 0x8000_0000
  }

  /** The quantity of `p` over all items, repeats included. */
  function Ordered(items: seq<OrderItem>, p: ProductId): int {
    if items == [] then 0
    else
      var last := items[|items| - 1];
      Ordered(items[..|items| - 1], p) + if last.product == p then last.quantity else 0
  }

  predicate Mentions(items: seq<OrderItem>, p: ProductId) {
    exists i :: 0 <= i < |items| && items[i].product == p
  }

  /** Item `i` goes through when the items up to it, itself included, can be taken from its row. */
  predicate Fits(table: Table, items: seq<OrderItem>, i: nat)
    requires i < |items|
  {
    var p := items[i].product;
    p in table ==>
      var taken := Ordered(items[..i + 1], p);
      && taken <= table[p].stock
      && Int32(items[i].quantity)
      && Int32(table[p].stock - taken)
      && Int32(table[p].reserved + taken)
  }

  ghost predicate Feasible(table: Table, items: seq<OrderItem>) {
    forall i :: 0 <= i < |items| ==> Fits(table, items, i)
  }

  function Reduced(table: Table, items: seq<OrderItem>): Table {
    map p | p in table :: Row(table[p].stock - Ordered(items, p), table[p].reserved + Ordered(items, p))
  }

  /** `outcome` reports the first item that does not go through, with what the earlier ones left of its stock. */
  ghost predicate FirstShort(table: Table, items: seq<OrderItem>, i: nat, outcome: Outcome) {
    && outcome.Insufficient? && i < |items|
    && items[i].product == outcome.product && outcome.product in table
    && Feasible(table, items[..i])
    && outcome.have == table[outcome.product].stock - Ordered(items[..i], outcome.product)
    && outcome.have < outcome.need == items[i].quantity
  }

  /** After the items before it, item `i` is the first that does not go through: there is too little left of it. */
  ghost predicate ShortAt(table: Table, items: seq<OrderItem>, i: nat) {
    && i < |items| && Feasible(table, items[..i]) && items[i].product in table
    && table[items[i].product].stock - Ordered(items[..i], items[i].product) < items[i].quantity
  }

  /** Some item finds too little stock before the database reports an error. */
  ghost predicate RunsShort(table: Table, items: seq<OrderItem>, fault: Fault) {
    fault != BeginFails && exists i: nat :: ShortAt(table, items, i) && (fault.QueryFails? ==> i < fault.at)
  }

  /** The database reports an error before any item stops the order. */
  ghost predicate BreaksDown(table: Table, items: seq<OrderItem>, fault: Fault) {
    match fault
    case NoFault => false
    case BeginFails => true
    case QueryFails(at) => at < |items| && Feasible(table, items[..at])
    case CommitFails => Feasible(table, items)
  }

  /** The items before `i` can be taken, and there it ends. */
  ghost predicate StopsAt(table: Table, items: seq<OrderItem>, fault: Fault, i: nat, outcome: Outcome) {
    && i <= |items| && Feasible(table, items[..i]) && fault != BeginFails && (fault.QueryFails? ==> i <= fault.at)
    && match outcome
       case Committed => i == |items| && fault != CommitFails
       case DatabaseError => if i < |items| then fault == QueryFails(i) else fault == CommitFails
       case Insufficient(_, _, _) => i < |items| && fault != QueryFails(i) && FirstShort(table, items, i, outcome)
       case OutOfRange(p) =>
         && i < |items| && fault != QueryFails(i) && p == items[i].product && p in table
         && table[p].stock - Ordered(items[..i], p) >= items[i].quantity && !Fits(table, items, i)
  }

  ghost predicate Ends(table: Table, items: seq<OrderItem>, fault: Fault, outcome: Outcome) {
    (fault == BeginFails && outcome == DatabaseError) || exists i: nat :: StopsAt(table, items, fault, i, outcome)
  }

  predicate Strikes(fault: Fault, items: seq<OrderItem>) {
    match fault
    case NoFault => false
    case QueryFails(at) => at < |items|
    case _ => true
  }

  // --- The worker -------------------------------------------------------------------------------

  class InventoryWorker {
    var table: Table
    var messages: nat
    var successes: nat
    var insufficient: nat
    var errors: nat

    constructor (table: Table)
      ensures this.table == table
      ensures messages == successes == insufficient == errors == 0
    {
      this.table := table;
      messages, successes, insufficient, errors := 0, 0, 0, 0;
    }

    method ReserveStock(items: seq<OrderItem>, fault: Fault) returns (outcome: Outcome)
      modifies this`table, this`insufficient
      ensures outcome == Committed <==> Feasible(old(table), items) && !Strikes(fault, items)
      ensures table == if outcome == Committed then Reduced(old(table), items) else old(table)
      ensures insufficient == old(insufficient) + if outcome.Insufficient? then 1 else 0
      ensures Ends(old(table), items, fault, outcome)
    {
      if fault == BeginFails {
        return DatabaseError;
      }
      var pending := table;
      assert pending == Reduced(table, items[..0]);
      for i := 0 to |items|
        invariant table == old(table) && insufficient == old(insufficient)
        invariant fault != BeginFails && (fault.QueryFails? ==> fault.at >= i)
        invariant Feasible(table, items[..i])
        invariant pending == Reduced(table, items[..i])
      {
        var item := items[i];
        if fault == QueryFails(i) {
          StoppedCommits(table, items, fault, i, DatabaseError);
          return DatabaseError;
        }
        ItemInTurn(table, items, fault, i, pending);
        if item.product !in pending {
          continue;
        }
        var row := pending[item.product];
        if row.stock < item.quantity {
          insufficient := insufficient + 1;
          outcome := Insufficient(item.product, row.stock, item.quantity);
          StoppedCommits(table, items, fault, i, outcome);
          return;
        }
        if !Int32(item.quantity) || !Int32(row.stock - item.quantity) || !Int32(row.reserved + item.quantity) {
          StoppedCommits(table, items, fault, i, OutOfRange(item.product));
          return OutOfRange(item.product);
        }
        pending := pending[item.product := Row(row.stock - item.quantity, row.reserved + item.quantity)];
      }
      assert items[..|items|] == items;
      if fault == CommitFails {
        StoppedCommits(table, items, fault, |items|, DatabaseError);
        return DatabaseError;
      }
      StoppedCommits(table, items, fault, |items|, Committed);
      table := pending;
      return Committed;
    }

    /** One delivery of `orders.created`; a payload that does not parse is `None`. */
    method HandleOrderCreated(payload: seq<OrderItem>, malformed: bool, fault: Fault) returns (ack: bool)
      modifies this
      ensures messages == old(messages) + 1
      ensures ack <==> !malformed && Feasible(old(table), payload) && !Strikes(fault, payload)
      ensures table == if ack then Reduced(old(table), payload) else old(table)
      ensures successes == old(successes) + if ack then 1 else 0
      ensures errors == old(errors) + if ack || malformed then 0 else 1
      ensures insufficient == old(insufficient)
        + if !malformed && RunsShort(old(table), payload, fault) then 1 else 0
    {
      messages := messages + 1;
      if malformed {
        return false;
      }
      var outcome := ReserveStock(payload, fault);
      EndsMeans(old(table), payload, fault, outcome);
      if outcome != Committed {
        errors := errors + 1;
        return false;
      }
      successes := successes + 1;
      return true;
    }
  }

  /** One more item changes the feasibility and the reduced table by that item alone. */
  lemma {:induction false} TakeOne(table: Table, items: seq<OrderItem>, i: nat)
    requires i < |items|
    ensures Ordered(items[..i + 1], items[i].product) == Ordered(items[..i], items[i].product) + items[i].quantity
    ensures forall p :: p != items[i].product ==> Ordered(items[..i + 1], p) == Ordered(items[..i], p)
    ensures Feasible(table, items[..i + 1]) <==> Feasible(table, items[..i]) && Fits(table, items, i)
    ensures Feasible(table, items) ==> Fits(table, items, i)
  {
    assert items[..i + 1][..i] == items[..i];
    forall k | 0 <= k < i
      ensures Fits(table, items[..i + 1], k) == Fits(table, items[..i], k)
    {
      assert items[..i + 1][..k + 1] == items[..i][..k + 1];
    }
    assert items[..i + 1][..i + 1] == items[..i + 1];
    assert Fits(table, items[..i + 1], i) == Fits(table, items, i);
    if Feasible(table, items[..i + 1]) {
      forall k | 0 <= k < i
        ensures Fits(table, items[..i], k)
      {
        assert Fits(table, items[..i + 1], k);
      }
    }
    if Feasible(table, items[..i]) && Fits(table, items, i) {
      var upTo := items[..i + 1];
      forall k | 0 <= k < |upTo|
        ensures Fits(table, upTo, k)
      {
        assert k < i ==> Fits(table, items[..i], k);
      }
    }
  }

  lemma {:induction false} ReducedTakesOne(table: Table, items: seq<OrderItem>, i: nat)
    requires i < |items|
    ensures
      var p, before := items[i].product, Reduced(table, items[..i]);
      Reduced(table, items[..i + 1])
      == if p !in table then before
         else before[p := Row(before[p].stock - items[i].quantity, before[p].reserved + items[i].quantity)]
  {
    TakeOne(table, items, i);
  }

  /** What the pending table says of the next item is what `StopsAt` and `Reduced` say of it. */
  lemma {:induction false} ItemInTurn(table: Table, items: seq<OrderItem>, fault: Fault, i: nat, pending: Table)
    requires i < |items| && Feasible(table, items[..i]) && pending == Reduced(table, items[..i])
    requires fault != BeginFails && fault != QueryFails(i) && (fault.QueryFails? ==> i <= fault.at)
    ensures
      var p, q := items[i].product, items[i].quantity;
      if p !in pending then
        Feasible(table, items[..i + 1]) && pending == Reduced(table, items[..i + 1])
      else
        var row := pending[p];
        if row.stock < q then
          StopsAt(table, items, fault, i, Insufficient(p, row.stock, q))
        else if !Int32(q) || !Int32(row.stock - q) || !Int32(row.reserved + q) then
          StopsAt(table, items, fault, i, OutOfRange(p))
        else
          && Feasible(table, items[..i + 1])
          && pending[p := Row(row.stock - q, row.reserved + q)] == Reduced(table, items[..i + 1])
  {
    TakeOne(table, items, i);
    ReducedTakesOne(table, items, i);
  }

  lemma {:induction false} StoppedCommits(table: Table, items: seq<OrderItem>, fault: Fault, i: nat, outcome: Outcome)
    requires StopsAt(table, items, fault, i, outcome)
    ensures outcome == Committed <==> Feasible(table, items) && !Strikes(fault, items)
    ensures Ends(table, items, fault, outcome)
  {
    if outcome.Insufficient? {
      ShortDoesNotFit(table, items, i);
    }
    if outcome.Insufficient? || outcome.OutOfRange? {
      StopsThere(table, items, i);
    }
    assert i == |items| ==> items[..i] == items;
  }

  /** Of a feasible prefix no item is short. */
  lemma {:induction false} FeasibleIsNotShort(table: Table, items: seq<OrderItem>, n: nat)
    requires n <= |items| && Feasible(table, items[..n])
    ensures forall i: nat :: i < n ==> !ShortAt(table, items, i)
  {
    forall i: nat | i < n && ShortAt(table, items, i)
      ensures false
    {
      TakeOne(table, items, i);
      PrefixIsFeasible(table, items, i + 1, n);
    }
  }

  lemma {:induction false} PrefixIsFeasible(table: Table, items: seq<OrderItem>, i: nat, n: nat)
    requires i <= n <= |items| && Feasible(table, items[..n])
    ensures Feasible(table, items[..i])
  {
    forall k | 0 <= k < i
      ensures Fits(table, items[..i], k)
    {
      assert Fits(table, items[..n], k);
      assert items[..i][..k + 1] == items[..n][..k + 1];
    }
  }

  lemma {:induction false} StopsThere(table: Table, items: seq<OrderItem>, i: nat)
    requires i < |items| && Feasible(table, items[..i]) && !Fits(table, items, i)
    ensures !Feasible(table, items)
    ensures forall n: nat :: i < n <= |items| ==> !Feasible(table, items[..n])
  {
    TakeOne(table, items, i);
    forall n: nat | i < n <= |items| && Feasible(table, items[..n])
      ensures false
    {
      PrefixIsFeasible(table, items, i + 1, n);
    }
  }

  lemma {:induction false} ShortDoesNotFit(table: Table, items: seq<OrderItem>, i: nat)
    requires ShortAt(table, items, i)
    ensures !Fits(table, items, i)
  {
    TakeOne(table, items, i);
  }

  /** Where an order ends short, no other item is short before it. */
  lemma {:induction false} OnlyShortThere(table: Table, items: seq<OrderItem>, i: nat, k: nat)
    requires i <= |items| && Feasible(table, items[..i]) && ShortAt(table, items, k)
    ensures i <= k
    ensures i < |items| && !Fits(table, items, i) ==> k == i
  {
    if k < i {
      FeasibleIsNotShort(table, items, i);
    }
    if i < |items| && !Fits(table, items, i) && i < k {
      StopsThere(table, items, i);
    }
  }

  /** How a reservation ends, by what the table holds and the database reports: short exactly if an item finds too
      little before an error, and broken down exactly if an error comes before an item stops it. */
  lemma {:induction false} EndsMeans(table: Table, items: seq<OrderItem>, fault: Fault, outcome: Outcome)
    requires Ends(table, items, fault, outcome)
    ensures outcome.Insufficient? <==> RunsShort(table, items, fault)
    ensures outcome.DatabaseError? <==> BreaksDown(table, items, fault)
  {
    if fault != BeginFails {
      var i: nat :| StopsAt(table, items, fault, i, outcome);
      StoppedMeans(table, items, fault, i, outcome);
    }
  }

  lemma {:induction false} StoppedMeans(table: Table, items: seq<OrderItem>, fault: Fault, i: nat, outcome: Outcome)
    requires StopsAt(table, items, fault, i, outcome)
    ensures outcome.Insufficient? <==> RunsShort(table, items, fault)
    ensures outcome.DatabaseError? <==> BreaksDown(table, items, fault)
  {
    StoppedShort(table, items, fault, i, outcome);
    StoppedBroken(table, items, fault, i, outcome);
  }

  lemma {:induction false} StoppedShort(table: Table, items: seq<OrderItem>, fault: Fault, i: nat, outcome: Outcome)
    requires StopsAt(table, items, fault, i, outcome)
    ensures outcome.Insufficient? <==> RunsShort(table, items, fault)
  {
    if outcome.Insufficient? {
      assert ShortAt(table, items, i);
    } else {
      forall k: nat | ShortAt(table, items, k) && (fault.QueryFails? ==> k < fault.at)
        ensures false
      {
        OnlyShortThere(table, items, i, k);
      }
    }
  }

  lemma {:induction false} StoppedBroken(table: Table, items: seq<OrderItem>, fault: Fault, i: nat, outcome: Outcome)
    requires StopsAt(table, items, fault, i, outcome)
    ensures outcome.DatabaseError? <==> BreaksDown(table, items, fault)
  {
    if outcome.Insufficient? {
      ShortDoesNotFit(table, items, i);
    }
    if outcome.Insufficient? || outcome.OutOfRange? {
      StopsThere(table, items, i);
    }
    assert i == |items| ==> items[..i] == items;
  }

  /** The columns end at 2147483647: one more reservation is refused, and the last one still goes through. */
  lemma {:induction false} ColumnsAreFull(p: ProductId)
    ensures !Feasible(map[p := Row(1, 2147483647)], [OrderItem(p, 1)])
    ensures Feasible(map[p := Row(1, 2147483646)], [OrderItem(p, 1)])
    ensures !Feasible(map[p := Row(-2147483648, 0)], [OrderItem(p, 1)])
    ensures Feasible(map[p := Row(-2147483648, 0)], [OrderItem(p, -2147483648)])
  {
    OneItem(map[p := Row(1, 2147483647)], p, 1);
    OneItem(map[p := Row(1, 2147483646)], p, 1);
    OneItem(map[p := Row(-2147483648, 0)], p, 1);
    OneItem(map[p := Row(-2147483648, 0)], p, -2147483648);
  }

  lemma {:induction false} OneItem(table: Table, p: ProductId, q: int)
    requires p in table
    ensures Feasible(table, [OrderItem(p, q)])
       <==> q <= table[p].stock && Int32(q) && Int32(table[p].stock - q) && Int32(table[p].reserved + q)
  {
    var items := [OrderItem(p, q)];
    assert items[..1] == items && items[..0] == [];
    TakeOne(table, items, 0);
    assert Feasible(table, items) ==> Fits(table, items, 0);
  }

  // --- What a reservation means -----------------------------------------------------------------

  ghost predicate NonNegative(items: seq<OrderItem>) {
    forall i :: 0 <= i < |items| ==> items[i].quantity >= 0
  }

  /** Rows that the table can hold, and whose stock and reservations together stay in range. */
  ghost predicate Sound(table: Table) {
    forall p :: p in table ==>
      && Int32(table[p].stock) && Int32(table[p].reserved)
      && Int32(table[p].stock + table[p].reserved)
  }

  lemma {:induction false} PrefixOrdersLess(items: seq<OrderItem>, i: nat, p: ProductId)
    requires NonNegative(items) && i <= |items|
    ensures 0 <= Ordered(items[..i], p) <= Ordered(items, p)
    decreases |items|
  {
    if items != [] {
      var front := items[..|items| - 1];
      PrefixOrdersLess(front, |front|, p);
      assert front[..|front|] == front;
      if i < |items| {
        PrefixOrdersLess(front, i, p);
        assert front[..i] == items[..i];
      } else {
        assert items[..i] == items;
      }
    }
  }

  /** What is left after the last item of a product is in range. */
  lemma {:induction false} FeasibleCoversTotals(table: Table, items: seq<OrderItem>, p: ProductId)
    requires Feasible(table, items) && p in table && Mentions(items, p)
    ensures Ordered(items, p) <= table[p].stock
    ensures Int32(table[p].stock - Ordered(items, p)) && Int32(table[p].reserved + Ordered(items, p))
  {
    var front, last := items[..|items| - 1], |items| - 1;
    TakeOne(table, items, last);
    assert items[..last + 1] == items;
    if items[last].product != p {
      var i :| 0 <= i < |items| && items[i].product == p;
      assert front[i].product == p;
      FeasibleCoversTotals(table, front, p);
    }
  }

  /** For non-negative quantities an order goes through exactly when, for every tracked product it
      mentions, the summed quantity is in stock. */
  lemma {:induction false} CommitsIffTotalsInStock(table: Table, items: seq<OrderItem>)
    requires NonNegative(items) && Sound(table)
    ensures Feasible(table, items)
       <==> forall p :: p in table && Mentions(items, p) ==> Ordered(items, p) <= table[p].stock
  {
    if forall p :: p in table && Mentions(items, p) ==> Ordered(items, p) <= table[p].stock {
      forall i | 0 <= i < |items|
        ensures Fits(table, items, i)
      {
        var p := items[i].product;
        PrefixOrdersLess(items, i + 1, p);
        PrefixOrdersLess(items, i, p);
        TakeOne(table, items, i);
      }
    } else {
      forall p | Feasible(table, items) && p in table && Mentions(items, p)
        ensures Ordered(items, p) <= table[p].stock
      {
        FeasibleCoversTotals(table, items, p);
      }
    }
  }

  lemma {:induction false} OrderedConcat(a: seq<OrderItem>, b: seq<OrderItem>, p: ProductId)
    ensures Ordered(a + b, p) == Ordered(a, p) + Ordered(b, p)
  {
    if b == [] {
      assert a + b == a;
    } else {
      assert (a + b)[..|a + b| - 1] == a + b[..|b| - 1];
      OrderedConcat(a, b[..|b| - 1], p);
    }
  }

  lemma {:induction false} RemoveOne(items: seq<OrderItem>, k: nat, p: ProductId)
    requires k < |items|
    ensures multiset(items) == multiset(items[..k] + items[k + 1..]) + multiset{items[k]}
    ensures Ordered(items, p)
         == Ordered(items[..k] + items[k + 1..], p) + if items[k].product == p then items[k].quantity else 0
  {
    var left, one, right := items[..k], [items[k]], items[k + 1..];
    assert items == left + (one + right);
    OrderedConcat(left, right, p);
    OrderedConcat(left, one + right, p);
    OrderedConcat(one, right, p);
    assert one[..0] == [];
  }

  lemma {:induction false} Cancel<T>(x: multiset<T>, y: multiset<T>, e: T)
    requires x + multiset{e} == y + multiset{e}
    ensures x == y
  {
    assert x == x + multiset{e} - multiset{e};
    assert y == y + multiset{e} - multiset{e};
  }

  lemma {:induction false} OrderedPermutation(a: seq<OrderItem>, b: seq<OrderItem>, p: ProductId)
    requires multiset(a) == multiset(b)
    ensures Ordered(a, p) == Ordered(b, p)
    decreases |a|
  {
    if a == [] {
      assert |multiset(b)| == 0;
    } else {
      var last := a[|a| - 1];
      assert last in multiset(b);
      var k :| 0 <= k < |b| && b[k] == last;
      RemoveOne(a, |a| - 1, p);
      RemoveOne(b, k, p);
      var front, rest := a[..|a| - 1] + a[|a|..], b[..k] + b[k + 1..];
      Cancel(multiset(front), multiset(rest), last);
      OrderedPermutation(front, rest, p);
    }
  }

  /** Neither the verdict nor the resulting table depends on the order of the items. */
  lemma {:induction false} ItemOrderIsIrrelevant(table: Table, items: seq<OrderItem>, shuffled: seq<OrderItem>)
    requires NonNegative(items) && Sound(table) && multiset(items) == multiset(shuffled)
    ensures Feasible(table, items) <==> Feasible(table, shuffled)
    ensures Reduced(table, items) == Reduced(table, shuffled)
  {
    forall p
      ensures Ordered(items, p) == Ordered(shuffled, p) && Mentions(items, p) == Mentions(shuffled, p)
    {
      OrderedPermutation(items, shuffled, p);
      MentionsPermutation(items, shuffled, p);
      MentionsPermutation(shuffled, items, p);
    }
    forall i | 0 <= i < |shuffled|
      ensures shuffled[i].quantity >= 0
    {
      assert shuffled[i] in multiset(items);
    }
    CommitsIffTotalsInStock(table, items);
    CommitsIffTotalsInStock(table, shuffled);
  }

  lemma {:induction false} MentionsPermutation(a: seq<OrderItem>, b: seq<OrderItem>, p: ProductId)
    requires multiset(a) == multiset(b)
    ensures Mentions(a, p) ==> Mentions(b, p)
  {
    if Mentions(a, p) {
      var i :| 0 <= i < |a| && a[i].product == p;
      assert a[i] in multiset(b);
    }
  }

  /** Whatever the quantities, a reservation that goes through leaves no negative stock behind and
      keeps the sum of stock and reservations of every product. */
  lemma {:induction false} ReservationConserves(table: Table, items: seq<OrderItem>, p: ProductId)
    requires Feasible(table, items) && p in table
    ensures
      var row := Reduced(table, items)[p];
      && row.stock + row.reserved == table[p].stock + table[p].reserved
      && (table[p].stock >= 0 ==> row.stock >= 0)
  {
    if Mentions(items, p) {
      FeasibleCoversTotals(table, items, p);
    } else {
      UnmentionedIsZero(items, p);
    }
  }

  lemma {:induction false} UnmentionedIsZero(items: seq<OrderItem>, p: ProductId)
    requires !Mentions(items, p)
    ensures Ordered(items, p) == 0
  {
    if items != [] {
      var front := items[..|items| - 1];
      assert items[|items| - 1].product != p;
      assert forall i :: 0 <= i < |front| ==> front[i].product == items[i].product;
      UnmentionedIsZero(front, p);
    }
  }
}
