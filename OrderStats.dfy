/**
 * The dashboard's statistics: order count, counts per status and revenue,
 * derived in full from the order listing on every refresh, plus the staff and
 * admin head counts passed through.
 */
module OrderStats {
  import opened Wrappers
  import opened Orders
  import opened RecordStore

  datatype Stats = Stats(
    totalOrders: nat,
    completed: nat,
    pending: nat,
    revenue: real,
    totalStaff: nat,
    totalAdmins: nat)

  /** 1 when the order has exactly status `st`, else 0. */
  function Tally(o: Order, st: Status): nat {
    if o.status == Some(st) then 1 else 0
  }

  /** The number of orders whose status is exactly `st` (the completed and pending cards, src/pages/Dashboard.jsx:66-67). */
  function CountStatus(orders: seq<Order>, st: Status): (n: nat)
    ensures n <= |orders|
  {
    if orders == [] then 0 else Tally(orders[0], st) + CountStatus(orders[1..], st)
  }

  /** What one order adds to revenue: its total, or 0 when the total is missing. */
  function TotalOrZero(o: Order): real {
    o.total.GetOr(0.0)
  }

  /**
   * The revenue card (src/pages/Dashboard.jsx:68): the orders' totals, a missing
   * one counting as 0, summed from the left starting at 0.
   */
  function Revenue(orders: seq<Order>): (r: real)
    ensures orders == [] ==> r == 0.0
    ensures (forall i :: 0 <= i < |orders| ==> TotalOrZero(orders[i]) >= 0.0) ==> r >= 0.0
  {
    RevenueFrom(0.0, orders)
  }

  /** The left fold behind `Revenue`, from the running sum `acc`. */
  function RevenueFrom(acc: real, orders: seq<Order>): (r: real)
    ensures orders == [] ==> r == acc
    ensures (forall i :: 0 <= i < |orders| ==> TotalOrZero(orders[i]) >= 0.0) ==> r >= acc
    decreases |orders|
  {
    if orders == [] then acc
    else
      assert forall i :: 0 <= i < |orders[1..]| ==> orders[1..][i] == orders[i + 1];
      RevenueFrom(acc + TotalOrZero(orders[0]), orders[1..])
  }

  /** The statistics object the dashboard derives from the three listings it reads. */
  function ComputeStats(orders: seq<Order>, staffCount: nat, adminCount: nat): (s: Stats)
    ensures s.totalOrders == |orders|
    ensures s.completed + s.pending <= s.totalOrders
  {
    KnownStatusesFillTotal(orders);
    Stats(|orders|, CountStatus(orders, Completed), CountStatus(orders, Pending),
          Revenue(orders), staffCount, adminCount)
  }

  /** Every order has at most one status, so the two counts never exceed the order count;
      they add up to it exactly when no order has a missing status. */
  lemma {:induction false} KnownStatusesFillTotal(orders: seq<Order>)
    ensures CountStatus(orders, Completed) + CountStatus(orders, Pending) <= |orders|
    ensures CountStatus(orders, Completed) + CountStatus(orders, Pending) == |orders|
        <==> forall i :: 0 <= i < |orders| ==> orders[i].status.Some?
  {
    if orders != [] {
      KnownStatusesFillTotal(orders[1..]);
      if forall i :: 0 <= i < |orders| ==> orders[i].status.Some? {
        assert orders[0].status.Some?;
        assert orders[0].status.value == Completed || orders[0].status.value == Pending;
        assert Tally(orders[0], Completed) + Tally(orders[0], Pending) == 1;
        assert forall i :: 0 <= i < |orders[1..]| ==> orders[1..][i].status.Some? by {
          forall i | 0 <= i < |orders[1..]| ensures orders[1..][i].status.Some? {
            assert orders[1..][i] == orders[i + 1];
          }
        }
      } else {
        var i :| 0 <= i < |orders| && orders[i].status.None?;
        if i > 0 { assert orders[1..][i - 1].status.None?; }
      }
    }
  }

  /** With no orders every derived figure is zero. */
  lemma StatsOfNoOrders(staffCount: nat, adminCount: nat)
    ensures ComputeStats([], staffCount, adminCount) == Stats(0, 0, 0, 0.0, staffCount, adminCount)
  {
  }

  /** The left fold equals the running start value plus the sum of the parts. */
  lemma {:induction false} RevenueFromShift(acc: real, orders: seq<Order>)
    ensures RevenueFrom(acc, orders) == acc + Revenue(orders)
    decreases |orders|
  {
    if orders != [] {
      RevenueFromShift(acc + TotalOrZero(orders[0]), orders[1..]);
      RevenueFromShift(TotalOrZero(orders[0]), orders[1..]);
    }
  }

  /** One step of the revenue fold. */
  lemma RevenueFromStep(acc: real, orders: seq<Order>)
    requires orders != []
    ensures RevenueFrom(acc, orders) == RevenueFrom(acc + TotalOrZero(orders[0]), orders[1..])
  {
  }

  /** Revenue of a non-empty listing: its first order's contribution plus the rest. */
  lemma RevenueCons(orders: seq<Order>)
    requires orders != []
    ensures Revenue(orders) == TotalOrZero(orders[0]) + Revenue(orders[1..])
  {
    RevenueFromShift(TotalOrZero(orders[0]), orders[1..]);
  }

  lemma {:induction false} RevenueSplit(a: seq<Order>, b: seq<Order>)
    ensures Revenue(a + b) == Revenue(a) + Revenue(b)
  {
    if a != [] {
      RevenueSplit(a[1..], b);
      assert (a + b)[1..] == a[1..] + b;
      assert (a + b)[0] == a[0];
      RevenueCons(a + b);
      RevenueCons(a);
      assert Revenue(a + b) == TotalOrZero(a[0]) + Revenue(a[1..] + b);
    } else {
      assert a + b == b;
    }
  }

  lemma {:induction false} CountSplit(a: seq<Order>, b: seq<Order>, st: Status)
    ensures CountStatus(a + b, st) == CountStatus(a, st) + CountStatus(b, st)
  {
    if a != [] {
      CountSplit(a[1..], b, st);
      assert (a + b)[1..] == a[1..] + b;
      assert (a + b)[0] == a[0];
      assert CountStatus(a + b, st) == Tally(a[0], st) + CountStatus(a[1..] + b, st);
    } else {
      assert a + b == b;
    }
  }

  /** Revenue does not depend on the order in which the rows are listed. */
  lemma {:induction false} RevenuePermutation(a: seq<Order>, b: seq<Order>)
    requires multiset(a) == multiset(b)
    ensures Revenue(a) == Revenue(b)
    decreases |a|
  {
    if a != [] {
      var i := PositionOf(a[0], b);
      var rest := b[..i] + b[i + 1..];
      DropFirst(a);
      RevenuePermutation(a[1..], rest);
      RevenueSplit(b[..i] + [b[i]], b[i + 1..]);
      RevenueSplit(b[..i], [b[i]]);
      RevenueSplit(b[..i], b[i + 1..]);
      RevenueCons(a);
      RevenueCons([b[i]]);
    }
  }

  /** The status counts do not depend on the order in which the rows are listed. */
  lemma {:induction false} CountPermutation(a: seq<Order>, b: seq<Order>, st: Status)
    requires multiset(a) == multiset(b)
    ensures CountStatus(a, st) == CountStatus(b, st)
    decreases |a|
  {
    if a != [] {
      var i := PositionOf(a[0], b);
      var rest := b[..i] + b[i + 1..];
      DropFirst(a);
      CountPermutation(a[1..], rest, st);
      CountSplit(b[..i] + [b[i]], b[i + 1..], st);
      CountSplit(b[..i], [b[i]], st);
      CountSplit(b[..i], b[i + 1..], st);
      assert CountStatus(a, st) == Tally(a[0], st) + CountStatus(a[1..], st);
      assert CountStatus([b[i]], st) == Tally(b[i], st);
    }
  }

  /** An order of a listing sits at some position; the listing without that position holds the other orders. */
  lemma PositionOf(o: Order, b: seq<Order>) returns (i: nat)
    requires o in multiset(b)
    ensures i < |b| && b[i] == o
    ensures b == b[..i] + [b[i]] + b[i + 1..]
    ensures multiset(b[..i] + b[i + 1..]) == multiset(b) - multiset{o}
  {
    i :| 0 <= i < |b| && b[i] == o;
    assert b == b[..i] + [b[i]] + b[i + 1..];
    assert multiset(b) == multiset(b[..i]) + multiset([b[i]]) + multiset(b[i + 1..]);
  }

  /** The orders of a non-empty listing after its first are all but that first one. */
  lemma DropFirst(a: seq<Order>)
    requires a != []
    ensures multiset(a[1..]) == multiset(a) - multiset{a[0]}
  {
    assert a == [a[0]] + a[1..];
    assert multiset(a) == multiset([a[0]]) + multiset(a[1..]);
  }

  /** The statistics are the same whatever order the store lists the rows in. */
  lemma StatsIgnoreListingOrder(a: seq<Order>, b: seq<Order>, staffCount: nat, adminCount: nat)
    requires multiset(a) == multiset(b)
    ensures ComputeStats(a, staffCount, adminCount) == ComputeStats(b, staffCount, adminCount)
  {
    RevenuePermutation(a, b);
    CountPermutation(a, b, Completed);
    CountPermutation(a, b, Pending);
    assert |a| == |multiset(a)| == |b|;
  }

  /** Rewriting one order changes a status count by the difference of the two tallies. */
  lemma {:induction false} CountAfterSet(orders: seq<Order>, k: nat, o: Order, st: Status)
    requires k < |orders|
    ensures CountStatus(orders[k := o], st) + Tally(orders[k], st) == CountStatus(orders, st) + Tally(o, st)
  {
    if k > 0 {
      CountAfterSet(orders[1..], k - 1, o, st);
      assert orders[k := o][1..] == orders[1..][k - 1 := o];
    } else {
      assert orders[k := o][1..] == orders[1..];
    }
  }

  /** Rewriting one order changes revenue by the difference of the two totals. */
  lemma {:induction false} RevenueAfterSet(orders: seq<Order>, k: nat, o: Order)
    requires k < |orders|
    ensures Revenue(orders[k := o]) + TotalOrZero(orders[k]) == Revenue(orders) + TotalOrZero(o)
  {
    RevenueCons(orders);
    RevenueCons(orders[k := o]);
    if k > 0 {
      RevenueAfterSet(orders[1..], k - 1, o);
      assert orders[k := o][1..] == orders[1..][k - 1 := o];
    } else {
      assert orders[k := o][1..] == orders[1..];
    }
  }

  /**
   * Updating one row of the orders table moves the statistics by exactly that
   * row's old and new contributions; the order count does not move.
   */
  lemma StatsAfterUpdate(t: Table<Order>, id: Id, o: Order, staffCount: nat, adminCount: nat)
    requires t.Valid() && id in t.Map()
    ensures var before := ComputeStats(Values(t.rows), staffCount, adminCount);
            var after := ComputeStats(Values(t.Update(id, o).rows), staffCount, adminCount);
            var prior := t.Map()[id];
            && after.totalOrders == before.totalOrders
            && after.completed + Tally(prior, Completed) == before.completed + Tally(o, Completed)
            && after.pending + Tally(prior, Pending) == before.pending + Tally(o, Pending)
            && after.revenue + TotalOrZero(prior) == before.revenue + TotalOrZero(o)
  {
    var k := IdAt(t.rows, id);
    ContentsAt(t.rows, k);
    NewestFirstOnlyAt(t.rows, k);
    ReplaceAt(t.rows, k, o);
    CountAfterSet(Values(t.rows), k, o, Completed);
    CountAfterSet(Values(t.rows), k, o, Pending);
    RevenueAfterSet(Values(t.rows), k, o);
  }

  /** Marking a completed order pending again moves one order from the completed to the pending count. */
  lemma StatusRevertReflected(t: Table<Order>, id: Id, staffCount: nat, adminCount: nat)
    requires t.Valid() && id in t.Map() && t.Map()[id].status == Some(Completed)
    ensures var before := ComputeStats(Values(t.rows), staffCount, adminCount);
            var after := ComputeStats(Values(t.Update(id, t.Map()[id].(status := Some(Pending))).rows),
                                      staffCount, adminCount);
            && after.completed == before.completed - 1
            && after.pending == before.pending + 1
            && after.totalOrders == before.totalOrders
            && after.revenue == before.revenue
  {
    StatsAfterUpdate(t, id, t.Map()[id].(status := Some(Pending)), staffCount, adminCount);
  }

  /** Inserting a row adds one order, its status to its count and its total to revenue. */
  lemma StatsAfterInsert(t: Table<Order>, o: Order, staffCount: nat, adminCount: nat)
    ensures var before := ComputeStats(Values(t.rows), staffCount, adminCount);
            var after := ComputeStats(Values(t.Insert(o).rows), staffCount, adminCount);
            && after.totalOrders == before.totalOrders + 1
            && after.completed == before.completed + Tally(o, Completed)
            && after.pending == before.pending + Tally(o, Pending)
            && after.revenue == before.revenue + TotalOrZero(o)
  {
    assert Values(t.Insert(o).rows) == [o] + Values(t.rows);
    RevenueSplit([o], Values(t.rows));
    RevenueCons([o]);
  }

  /** Cutting one order out of a listing removes its tally from a status count. */
  lemma CountAfterCut(orders: seq<Order>, k: nat, st: Status)
    requires k < |orders|
    ensures CountStatus(orders[..k] + orders[k + 1..], st) + Tally(orders[k], st) == CountStatus(orders, st)
  {
    assert orders == orders[..k] + [orders[k]] + orders[k + 1..];
    CountSplit(orders[..k] + [orders[k]], orders[k + 1..], st);
    CountSplit(orders[..k], [orders[k]], st);
    CountSplit(orders[..k], orders[k + 1..], st);
  }

  /** Cutting one order out of a listing removes its total from revenue. */
  lemma RevenueAfterCut(orders: seq<Order>, k: nat)
    requires k < |orders|
    ensures Revenue(orders[..k] + orders[k + 1..]) + TotalOrZero(orders[k]) == Revenue(orders)
  {
    assert orders == orders[..k] + [orders[k]] + orders[k + 1..];
    RevenueSplit(orders[..k] + [orders[k]], orders[k + 1..]);
    RevenueSplit(orders[..k], [orders[k]]);
    RevenueSplit(orders[..k], orders[k + 1..]);
    RevenueCons([orders[k]]);
  }

  /** Deleting a row removes one order, its status from its count and its total from revenue. */
  lemma StatsAfterDelete(t: Table<Order>, id: Id, staffCount: nat, adminCount: nat)
    requires t.Valid() && id in t.Map()
    ensures var before := ComputeStats(Values(t.rows), staffCount, adminCount);
            var after := ComputeStats(Values(t.Delete(id).rows), staffCount, adminCount);
            var gone := t.Map()[id];
            && after.totalOrders + 1 == before.totalOrders
            && after.completed + Tally(gone, Completed) == before.completed
            && after.pending + Tally(gone, Pending) == before.pending
            && after.revenue + TotalOrZero(gone) == before.revenue
  {
    var k := IdAt(t.rows, id);
    ContentsAt(t.rows, k);
    NewestFirstOnlyAt(t.rows, k);
    RemoveAt(t.rows, k);
    var vs := Values(t.rows);
    ValuesCut(t.rows, k);
    CountAfterCut(vs, k, Completed);
    CountAfterCut(vs, k, Pending);
    RevenueAfterCut(vs, k);
  }
}
