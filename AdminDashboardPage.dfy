/**
 * The admin dashboard's four figures. Each comes from its own read of the
 * store; a read that fails leaves its data absent and the figure falls back
 * to 0.
 */
module AdminDashboardPage {
  import opened Wrappers
  import opened RecordStore
  import opened Orders
  import opened OrderStats
  import opened Backend

  /** The total column of the orders listing, as the revenue read asks for it (src/pages/AdminDashboard.jsx:30-32). */
  function TotalColumn(rows: seq<(Id, Order)>): (col: seq<Option<real>>)
    ensures |col| == |rows|
    ensures forall i :: 0 <= i < |rows| ==> col[i] == rows[i].1.total
  {
    if rows == [] then [] else [rows[0].1.total] + TotalColumn(rows[1..])
  }

  /**
   * The admin dashboard's revenue (src/pages/AdminDashboard.jsx:33-36): the
   * entries of the total column, a missing one counting as 0, summed from the
   * left starting at 0.
   */
  function ColumnRevenue(col: seq<Option<real>>): (r: real)
    ensures col == [] ==> r == 0.0
    ensures (forall i :: 0 <= i < |col| ==> col[i].GetOr(0.0) >= 0.0) ==> r >= 0.0
  {
    ColumnRevenueFrom(0.0, col)
  }

  /** The left fold behind `ColumnRevenue`, from the running sum `acc`. */
  function ColumnRevenueFrom(acc: real, col: seq<Option<real>>): (r: real)
    ensures col == [] ==> r == acc
    ensures (forall i :: 0 <= i < |col| ==> col[i].GetOr(0.0) >= 0.0) ==> r >= acc
    decreases |col|
  {
    if col == [] then acc
    else
      assert forall i :: 0 <= i < |col[1..]| ==> col[1..][i] == col[i + 1];
      ColumnRevenueFrom(acc + col[0].GetOr(0.0), col[1..])
  }

  /** One step of the column fold. */
  lemma ColumnRevenueFromStep(acc: real, col: seq<Option<real>>)
    requires col != []
    ensures ColumnRevenueFrom(acc, col) == ColumnRevenueFrom(acc + col[0].GetOr(0.0), col[1..])
  {
  }

  /**
   * Folding a column of totals adds the same amounts as folding the orders
   * they were read from, from any running sum.
   */
  lemma {:induction false} ColumnFoldMatches(acc: real, col: seq<Option<real>>, orders: seq<Order>)
    requires |col| == |orders| && forall i :: 0 <= i < |col| ==> col[i] == orders[i].total
    ensures ColumnRevenueFrom(acc, col) == RevenueFrom(acc, orders)
    decreases |col|
  {
    if col != [] {
      ColumnRevenueFromStep(acc, col);
      RevenueFromStep(acc, orders);
      forall i | 0 <= i < |col[1..]| ensures col[1..][i] == orders[1..][i].total {
        assert col[1..][i] == col[i + 1] && orders[1..][i] == orders[i + 1];
      }
      ColumnFoldMatches(acc + col[0].GetOr(0.0), col[1..], orders[1..]);
    }
  }

  /** The fold over the total column adds the same amounts as the dashboard's fold over whole rows. */
  lemma ColumnRevenueFromMatches(acc: real, rows: seq<(Id, Order)>)
    ensures ColumnRevenueFrom(acc, TotalColumn(rows)) == RevenueFrom(acc, Values(rows))
  {
    ColumnFoldMatches(acc, TotalColumn(rows), Values(rows));
  }

  /** Both dashboards report the same revenue for the same orders table. */
  lemma RevenueAgrees(rows: seq<(Id, Order)>)
    ensures ColumnRevenue(TotalColumn(rows)) == Revenue(Values(rows))
  {
    ColumnRevenueFromMatches(0.0, rows);
  }

  /** An empty orders table has no revenue. */
  lemma NoOrdersNoRevenue()
    ensures ColumnRevenue(TotalColumn([])) == 0.0
  {
  }

  class AdminDashboard {
    const db: Store

    var totalOrders: nat
    var totalCustomers: nat
    var revenue: real
    var totalStaff: nat

    constructor (db: Store)
      ensures this.db == db
      ensures totalOrders == 0 && totalCustomers == 0 && revenue == 0.0 && totalStaff == 0
    {
      this.db := db;
      totalOrders, totalCustomers, revenue, totalStaff := 0, 0, 0.0, 0;
    }

    /**
     * `fetchStats`: four reads, each of which may fail (`...Ok == false`)
     * and then yields no data. The orders and customers figures come from two
     * reads of the same table.
     */
    method FetchStats(ordersOk: bool, revenueOk: bool, customersOk: bool, staffOk: bool)
      modifies this`totalOrders, this`totalCustomers, this`revenue, this`totalStaff
      ensures totalOrders == if ordersOk then |db.customers.rows| else 0
      ensures revenue == if revenueOk then Revenue(Values(db.customers.rows)) else 0.0
      ensures totalCustomers == if customersOk then |db.customers.rows| else 0
      ensures totalStaff == if staffOk then |db.staff.rows| else 0
      ensures ordersOk && customersOk ==> totalOrders == totalCustomers
    {
      var orders: Option<seq<(Id, Order)>> := if ordersOk then Some(db.customers.rows) else None;
      totalOrders := if orders.Some? then |orders.value| else 0;

      var revenueData: Option<seq<Option<real>>> :=
        if revenueOk then Some(TotalColumn(db.customers.rows)) else None;
      var totalRevenue: Option<real> :=
        if revenueData.Some? then Some(ColumnRevenue(revenueData.value)) else None;
      revenue := totalRevenue.GetOr(0.0);
      if revenueOk {
        RevenueAgrees(db.customers.rows);
      }

      var customers: Option<seq<(Id, Order)>> := if customersOk then Some(db.customers.rows) else None;
      totalCustomers := if customers.Some? then |customers.value| else 0;

      var staffCount: Option<nat> := if staffOk then Some(|db.staff.rows|) else None;
      totalStaff := staffCount.GetOr(0);
    }
  }
}
