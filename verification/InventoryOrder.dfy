/** Whether the order of the items, and a second delivery of the same order, matter to a reservation. */
module InventoryOrder {
  import opened Inventory

  // --- Rising and falling quantities -------------------------------------------------------------

  /** The positive quantities of `p`, summed. */
  function Plus(items: seq<OrderItem>, p: ProductId): nat {
    if items == [] then 0
    else
      var last := items[|items| - 1];
      Plus(items[..|items| - 1], p) + if last.product == p && last.quantity > 0 then last.quantity else 0
  }

  /** The amounts of the negative quantities of `p`, summed. */
  function Minus(items: seq<OrderItem>, p: ProductId): nat {
    if items == [] then 0
    else
      var last := items[|items| - 1];
      Minus(items[..|items| - 1], p) + if last.product == p && last.quantity < 0 then -last.quantity else 0
  }

  function Rising(items: seq<OrderItem>): seq<OrderItem> {
    if items == [] then []
    else
      var front, last := Rising(items[..|items| - 1]), items[|items| - 1];
      if last.quantity > 0 then front + [last] else front
  }

  function Falling(items: seq<OrderItem>): seq<OrderItem> {
    if items == [] then []
    else
      var front, last := Falling(items[..|items| - 1]), items[|items| - 1];
      if last.quantity > 0 then front else front + [last]
  }

  lemma {:induction false} OrderedIsDifference(items: seq<OrderItem>, p: ProductId)
    ensures Ordered(items, p) == Plus(items, p) - Minus(items, p)
  {
    if items != [] {
      OrderedIsDifference(items[..|items| - 1], p);
    }
  }

  lemma {:induction false} PrefixSums(items: seq<OrderItem>, i: nat, p: ProductId)
    requires i <= |items|
    ensures Plus(items[..i], p) <= Plus(items, p) && Minus(items[..i], p) <= Minus(items, p)
  {
    if i == |items| {
      assert items[..i] == items;
    } else {
      var front := items[..|items| - 1];
      PrefixSums(front, i, p);
      assert front[..i] == items[..i];
    }
  }

  lemma {:induction false} PartsOfSnoc(items: seq<OrderItem>, x: OrderItem)
    ensures Rising(items + [x]) == if x.quantity > 0 then Rising(items) + [x] else Rising(items)
    ensures Falling(items + [x]) == if x.quantity > 0 then Falling(items) else Falling(items) + [x]
  {
    assert (items + [x])[..|items|] == items;
  }

  /** The rising and the falling items are all the items. */
  lemma {:induction false} PartsAreAll(items: seq<OrderItem>)
    ensures multiset(Rising(items)) + multiset(Falling(items)) == multiset(items)
    ensures forall x :: x in Rising(items) ==> x.quantity > 0
    ensures forall x :: x in Falling(items) ==> x.quantity <= 0
  {
    if items != [] {
      var front, last := items[..|items| - 1], items[|items| - 1];
      PartsAreAll(front);
      assert items == front + [last];
      PartsOfSnoc(front, last);
    }
  }

  lemma {:induction false} AppendOne(items: seq<OrderItem>, x: OrderItem, p: ProductId)
    ensures Ordered(items + [x], p) == Ordered(items, p) + if x.product == p then x.quantity else 0
    ensures Plus(items + [x], p) == Plus(items, p) + if x.product == p && x.quantity > 0 then x.quantity else 0
    ensures Minus(items + [x], p) == Minus(items, p) + if x.product == p && x.quantity < 0 then -x.quantity else 0
  {
    assert (items + [x])[..|items|] == items;
  }

  lemma {:induction false} PartSums(items: seq<OrderItem>, p: ProductId)
    ensures Ordered(Rising(items), p) == Plus(items, p) && Ordered(Falling(items), p) == 0 - Minus(items, p)
  {
    if items != [] {
      var front, last := items[..|items| - 1], items[|items| - 1];
      PartSums(front, p);
      if last.quantity > 0 {
        AppendOne(Rising(front), last, p);
      } else {
        AppendOne(Falling(front), last, p);
      }
    }
  }

  lemma {:induction false} RisingCount(items: seq<OrderItem>, x: OrderItem)
    ensures multiset(Rising(items))[x] == if x.quantity > 0 then multiset(items)[x] else 0
  {
    PartsAreAll(items);
    assert x.quantity > 0 ==> x !in Falling(items);
    assert x.quantity <= 0 ==> x !in Rising(items);
  }

  /** The sums do not depend on the order of the items. */
  lemma {:induction false} SumsPermutation(a: seq<OrderItem>, b: seq<OrderItem>, p: ProductId)
    requires multiset(a) == multiset(b)
    ensures Plus(a, p) == Plus(b, p) && Minus(a, p) == Minus(b, p)
  {
    forall x
      ensures multiset(Rising(a))[x] == multiset(Rising(b))[x]
    {
      RisingCount(a, x);
      RisingCount(b, x);
    }
    assert multiset(Rising(a)) == multiset(Rising(b));
    OrderedPermutation(Rising(a), Rising(b), p);
    OrderedPermutation(a, b, p);
    PartSums(a, p);
    PartSums(b, p);
    OrderedIsDifference(a, p);
    OrderedIsDifference(b, p);
  }

  // --- When every order of the items goes through ------------------------------------------------

  /** Rows as the table can hold them, with no negative stock. */
  ghost predicate Stocked(table: Table) {
    forall p :: p in table ==> Int32(table[p].stock) && Int32(table[p].reserved) && table[p].stock >= 0
  }

  /** No partial sum of the tracked items leaves the range of the columns. */
  ghost predicate Roomy(table: Table, items: seq<OrderItem>) {
    forall i :: 0 <= i < |items| && items[i].product in table ==>
      var p := items[i].product;
      && Int32(items[i].quantity)
      && Int32(table[p].stock + Minus(items, p))
      && Int32(table[p].reserved + Plus(items, p))
      && Int32(table[p].reserved - Minus(items, p))
  }

  /** For every tracked product the positive quantities alone are in stock. */
  ghost predicate Ample(table: Table, items: seq<OrderItem>) {
    forall i :: 0 <= i < |items| && items[i].product in table ==>
      Plus(items, items[i].product) <= table[items[i].product].stock
  }

  ghost predicate EveryOrderFits(table: Table, items: seq<OrderItem>) {
    forall shuffled: seq<OrderItem> :: multiset(shuffled) == multiset(items) ==> Feasible(table, shuffled)
  }

  ghost predicate SomeOrderFits(table: Table, items: seq<OrderItem>) {
    exists shuffled: seq<OrderItem> :: multiset(shuffled) == multiset(items) && Feasible(table, shuffled)
  }

  /** The sums of a prefix of any order, in terms of the items. */
  lemma {:induction false} PrefixOfOrder(items: seq<OrderItem>, shuffled: seq<OrderItem>, i: nat, p: ProductId)
    requires multiset(shuffled) == multiset(items) && i <= |shuffled|
    ensures 0 - Minus(items, p) <= Ordered(shuffled[..i], p) <= Plus(items, p)
    ensures Ordered(shuffled[..i], p) == Plus(shuffled[..i], p) - Minus(shuffled[..i], p)
  {
    PrefixSums(shuffled, i, p);
    SumsPermutation(shuffled, items, p);
    OrderedIsDifference(shuffled[..i], p);
  }

  lemma {:induction false} SameItem(items: seq<OrderItem>, shuffled: seq<OrderItem>, i: nat) returns (k: nat)
    requires multiset(shuffled) == multiset(items) && i < |shuffled|
    ensures k < |items| && items[k] == shuffled[i]
  {
    assert shuffled[i] in multiset(items);
    k :| 0 <= k < |items| && items[k] == shuffled[i];
  }

  lemma {:induction false} FitsWhenRoomy(table: Table, items: seq<OrderItem>, shuffled: seq<OrderItem>, i: nat)
    requires Stocked(table) && Roomy(table, items) && multiset(shuffled) == multiset(items) && i < |shuffled|
    ensures
      var p := shuffled[i].product;
      Fits(table, shuffled, i) <==> (p in table ==> Ordered(shuffled[..i + 1], p) <= table[p].stock)
  {
    var k := SameItem(items, shuffled, i);
    PrefixOfOrder(items, shuffled, i + 1, shuffled[i].product);
  }

  lemma {:induction false} PrefixFeasible(table: Table, a: seq<OrderItem>, b: seq<OrderItem>)
    requires Feasible(table, a + b)
    ensures Feasible(table, a)
  {
    forall i | 0 <= i < |a|
      ensures Fits(table, a, i)
    {
      assert Fits(table, a + b, i);
      assert (a + b)[..i + 1] == a[..i + 1];
    }
  }

  lemma {:induction false} Reordered(items: seq<OrderItem>)
    ensures multiset(Rising(items) + Falling(items)) == multiset(items)
    ensures multiset(Falling(items) + Rising(items)) == multiset(items)
  {
    PartsAreAll(items);
  }

  lemma {:induction false} ExtremesFit(table: Table, items: seq<OrderItem>, p: ProductId)
    requires Stocked(table) && EveryOrderFits(table, items) && p in table
    ensures Plus(items, p) <= table[p].stock
    ensures Int32(table[p].stock + Minus(items, p))
    ensures Int32(table[p].reserved + Plus(items, p)) && Int32(table[p].reserved - Minus(items, p))
  {
    Reordered(items);
    PrefixFeasible(table, Rising(items), Falling(items));
    PrefixFeasible(table, Falling(items), Rising(items));
    PartSums(items, p);
    if Mentions(Rising(items), p) {
      FeasibleCoversTotals(table, Rising(items), p);
    } else {
      UnmentionedIsZero(Rising(items), p);
    }
    if Mentions(Falling(items), p) {
      FeasibleCoversTotals(table, Falling(items), p);
    } else {
      UnmentionedIsZero(Falling(items), p);
    }
  }

  /** All orders of the items go through exactly when for each tracked product the positive quantities alone are
      in stock, and no column can leave its range on the way. */
  lemma {:induction false} EveryOrderFitsIff(table: Table, items: seq<OrderItem>)
    requires Stocked(table)
    ensures EveryOrderFits(table, items) <==> Ample(table, items) && Roomy(table, items)
  {
    if EveryOrderFits(table, items) {
      assert Feasible(table, items);
      forall i | 0 <= i < |items| && items[i].product in table
        ensures Int32(items[i].quantity)
      {
        assert Fits(table, items, i);
        ExtremesFit(table, items, items[i].product);
      }
      forall p | p in table
        ensures Plus(items, p) <= table[p].stock && Int32(table[p].stock + Minus(items, p))
        ensures Int32(table[p].reserved + Plus(items, p)) && Int32(table[p].reserved - Minus(items, p))
      {
        ExtremesFit(table, items, p);
      }
    }
    if Ample(table, items) && Roomy(table, items) {
      forall shuffled: seq<OrderItem> | multiset(shuffled) == multiset(items)
        ensures Feasible(table, shuffled)
      {
        AmpleOrderFits(table, items, shuffled);
      }
    }
  }

  lemma {:induction false} AmpleOrderFits(table: Table, items: seq<OrderItem>, shuffled: seq<OrderItem>)
    requires Stocked(table) && Ample(table, items) && Roomy(table, items) && multiset(shuffled) == multiset(items)
    ensures Feasible(table, shuffled)
  {
    forall i | 0 <= i < |shuffled|
      ensures Fits(table, shuffled, i)
    {
      var k := SameItem(items, shuffled, i);
      PrefixOfOrder(items, shuffled, i + 1, shuffled[i].product);
      FitsWhenRoomy(table, items, shuffled, i);
    }
  }

  // --- When the order matters --------------------------------------------------------------------

  /** Some tracked product's total is not in stock. */
  ghost predicate Overdrawn(table: Table, items: seq<OrderItem>) {
    exists i :: 0 <= i < |items| && items[i].product in table
      && Ordered(items, items[i].product) > table[items[i].product].stock
  }

  lemma {:induction false} FallingFirstFits(table: Table, items: seq<OrderItem>, i: nat)
    requires Stocked(table) && Roomy(table, items) && !Overdrawn(table, items)
    requires i < |items| && |Falling(items) + Rising(items)| == |items|
    ensures Fits(table, Falling(items) + Rising(items), i)
  {
    var down, up := Falling(items), Rising(items);
    var all := down + up;
    Reordered(items);
    var p := all[i].product;
    var k := SameItem(items, all, i);
    FitsWhenRoomy(table, items, all, i);
    if i < |down| {
      assert all[..i + 1] == down[..i + 1];
      FallingOnly(items, i + 1, p);
    } else {
      assert all[..i + 1] == down + up[..i + 1 - |down|];
      OrderedConcat(down, up[..i + 1 - |down|], p);
      PartSums(items, p);
      OrderedIsDifference(items, p);
      RisingOnly(items, i + 1 - |down|, p);
    }
  }

  lemma {:induction false} FallingOnly(items: seq<OrderItem>, i: nat, p: ProductId)
    requires i <= |Falling(items)|
    ensures Ordered(Falling(items)[..i], p) <= 0
  {
    PartsAreAll(items);
    NoneRises(Falling(items)[..i], p);
  }

  lemma {:induction false} NoneRises(items: seq<OrderItem>, p: ProductId)
    requires forall x :: x in items ==> x.quantity <= 0
    ensures Ordered(items, p) <= 0
  {
    if items != [] {
      NoneRises(items[..|items| - 1], p);
    }
  }

  lemma {:induction false} RisingOnly(items: seq<OrderItem>, i: nat, p: ProductId)
    requires i <= |Rising(items)|
    ensures Ordered(Rising(items)[..i], p) <= Plus(items, p)
  {
    PartsAreAll(items);
    PartSums(items, p);
    forall k | 0 <= k < |Rising(items)|
      ensures Rising(items)[k].quantity >= 0
    {
      assert Rising(items)[k] in Rising(items);
    }
    PrefixOrdersLess(Rising(items), i, p);
  }

  /** Some order goes through exactly when every tracked product's total is in stock. */
  lemma {:induction false} SomeOrderFitsIff(table: Table, items: seq<OrderItem>)
    requires Stocked(table) && Roomy(table, items)
    ensures SomeOrderFits(table, items) <==> !Overdrawn(table, items)
  {
    Reordered(items);
    assert |multiset(Falling(items) + Rising(items))| == |multiset(items)|;
    if SomeOrderFits(table, items) {
      var shuffled :| multiset(shuffled) == multiset(items) && Feasible(table, shuffled);
      forall i | 0 <= i < |items| && items[i].product in table
        ensures Ordered(items, items[i].product) <= table[items[i].product].stock
      {
        OrderCoversTotal(table, items, shuffled, i);
      }
    }
    if !Overdrawn(table, items) {
      forall i | 0 <= i < |items|
        ensures Fits(table, Falling(items) + Rising(items), i)
      {
        FallingFirstFits(table, items, i);
      }
      assert Feasible(table, Falling(items) + Rising(items));
    }
  }

  lemma {:induction false} OrderCoversTotal(table: Table, items: seq<OrderItem>, shuffled: seq<OrderItem>, i: nat)
    requires multiset(shuffled) == multiset(items) && Feasible(table, shuffled)
    requires i < |items| && items[i].product in table
    ensures Ordered(items, items[i].product) <= table[items[i].product].stock
  {
    var p := items[i].product;
    assert Mentions(items, p);
    MentionsPermutation(items, shuffled, p);
    OrderedPermutation(items, shuffled, p);
    FeasibleCoversTotals(table, shuffled, p);
  }

  /** The verdict is the same for all orders of the items. */
  ghost predicate OrderIsIrrelevant(table: Table, items: seq<OrderItem>) {
    forall shuffled: seq<OrderItem> :: multiset(shuffled) == multiset(items) ==>
      (Feasible(table, shuffled) <==> Feasible(table, items))
  }

  /** As long as the columns have room, the verdict is the same for all orders of the items exactly when for every
      tracked product the positive quantities alone are in stock, or for some not even the total is. */
  lemma {:induction false} OrderIsIrrelevantIff(table: Table, items: seq<OrderItem>)
    requires Stocked(table) && Roomy(table, items)
    ensures OrderIsIrrelevant(table, items) <==> Ample(table, items) || Overdrawn(table, items)
  {
    EveryOrderFitsIff(table, items);
    SomeOrderFitsIff(table, items);
    AllOrNone(table, items);
  }

  lemma {:induction false} AllOrNone(table: Table, items: seq<OrderItem>)
    ensures OrderIsIrrelevant(table, items) <==> EveryOrderFits(table, items) || !SomeOrderFits(table, items)
  {
    assert multiset(items) == multiset(items);
  }

  /** With a negative quantity, which the worker does not refuse, the order of the items matters. */
  lemma {:induction false} NegativeQuantityBreaksOrder()
    ensures
      var table: Table := map["a" := Row(5, 0)];
      var items, shuffled := [OrderItem("a", -5), OrderItem("a", 10)], [OrderItem("a", 10), OrderItem("a", -5)];
      multiset(items) == multiset(shuffled) && Feasible(table, items) && !Feasible(table, shuffled)
  {
    var table: Table := map["a" := Row(5, 0)];
    var items, shuffled := [OrderItem("a", -5), OrderItem("a", 10)], [OrderItem("a", 10), OrderItem("a", -5)];
    TakeOne(table, items, 0);
    TakeOne(table, items, 1);
    TakeOne(table, shuffled, 0);
    assert items[..0] == shuffled[..0] == [];
    assert !Fits(table, shuffled, 0);
    assert Fits(table, items, 0) && Fits(table, items, 1);
  }

  // --- Several orders ----------------------------------------------------------------------------

  lemma {:induction false} FitsAfter(table: Table, a: seq<OrderItem>, b: seq<OrderItem>, i: nat)
    requires i < |b|
    ensures Fits(table, a + b, |a| + i) == Fits(Reduced(table, a), b, i)
  {
    assert (a + b)[..|a| + i + 1] == a + b[..i + 1];
    OrderedConcat(a, b[..i + 1], b[i].product);
  }

  /** Two orders one after the other are one order with the items of both. */
  lemma {:induction false} OrdersCompose(table: Table, a: seq<OrderItem>, b: seq<OrderItem>)
    ensures Feasible(table, a + b) <==> Feasible(table, a) && Feasible(Reduced(table, a), b)
    ensures Reduced(table, a + b) == Reduced(Reduced(table, a), b)
  {
    forall p | p in table
      ensures Ordered(a + b, p) == Ordered(a, p) + Ordered(b, p)
    {
      OrderedConcat(a, b, p);
    }
    if Feasible(table, a + b) {
      PrefixFeasible(table, a, b);
      forall i | 0 <= i < |b|
        ensures Fits(Reduced(table, a), b, i)
      {
        FitsAfter(table, a, b, i);
        assert Fits(table, a + b, |a| + i);
      }
    }
    if Feasible(table, a) && Feasible(Reduced(table, a), b) {
      forall i | 0 <= i < |a + b|
        ensures Fits(table, a + b, i)
      {
        if i < |a| {
          assert Fits(table, a, i) && (a + b)[..i + 1] == a[..i + 1];
        } else {
          FitsAfter(table, a, b, i - |a|);
        }
      }
    }
  }

  /** An order that is delivered again, because its acknowledgement was lost, is reserved again exactly when
      everything it asks for is in stock twice; the worker keeps no record of orders. */
  lemma {:induction false} RedeliveryReservesAgainIff(table: Table, items: seq<OrderItem>)
    requires NonNegative(items) && Sound(table) && Feasible(table, items)
    ensures Feasible(Reduced(table, items), items)
       <==> forall p :: p in table && Mentions(items, p) ==> 2 * Ordered(items, p) <= table[p].stock
    ensures forall p :: p in table ==>
      Reduced(Reduced(table, items), items)[p].reserved == table[p].reserved + 2 * Ordered(items, p)
  {
    OrdersCompose(table, items, items);
    CommitsIffTotalsInStock(table, items + items);
    forall p
      ensures Ordered(items + items, p) == 2 * Ordered(items, p) && Mentions(items + items, p) == Mentions(items, p)
    {
      OrderedConcat(items, items, p);
      MentionedTwice(items, p);
    }
  }

  lemma {:induction false} MentionedTwice(items: seq<OrderItem>, p: ProductId)
    ensures Mentions(items + items, p) == Mentions(items, p)
  {
    if Mentions(items, p) {
      var i :| 0 <= i < |items| && items[i].product == p;
      assert (items + items)[i].product == p;
    }
    if Mentions(items + items, p) {
      var i :| 0 <= i < |items + items| && (items + items)[i].product == p;
      assert items[if i < |items| then i else i - |items|].product == p;
    }
  }
}
