/**
 * The dashboard screen: the statistics cards, the list of recent orders and
 * the create/edit order modal. The modal's fields are the screen's state; on
 * submit the row sent to the store carries a total recomputed from service and
 * quantity, whatever the read-only total field last showed.
 */
module DashboardPage {
  import opened Wrappers
  import opened RecordStore
  import opened Orders
  import opened OrderStats
  import opened Backend

  /** The quantity field a stored quantity opens as: a missing or zero quantity opens empty. */
  function QuantityField(q: Option<real>): (f: Option<real>)
    ensures f.None? <==> q.None? || q == Some(0.0)
    ensures f.Some? ==> f == q
  {
    if q.None? || q.value == 0.0 then None else q
  }

  /**
   * The six fields the order form requires before anything is sent. A form
   * that passes always has a quantity, so a known service is priced at its
   * rate rather than at the empty-input 0.
   */
  predicate OrderFieldsComplete(name: string, email: string, service: string,
                                pickupDate: string, pickupTime: string, quantity: Option<real>)
    ensures OrderFieldsComplete(name, email, service, pickupDate, pickupTime, quantity) ==>
              && quantity.Some?
              && (ParseService(service).Some? ==>
                    CalculateTotal(service, quantity) == quantity.value * Rate(ParseService(service).value))
  {
    name != "" && email != "" && service != "" && pickupDate != "" && pickupTime != "" && quantity.Some?
  }

  /** The row `handleSubmit` sends to the store for the given form fields. */
  function Submission(name: string, email: string, service: string, quantity: Option<real>,
                      pickupDate: string, pickupTime: string, status: Status): (o: Order)
    ensures Priced(o)
    ensures o.status == Some(status) && o.quantity == quantity && o.serviceType == service
    ensures o.name == name && o.email == email && o.pickupDate == pickupDate && o.pickupTime == pickupTime
  {
    Order(name, email, service, quantity, pickupDate, pickupTime, Some(status),
          Some(CalculateTotal(service, quantity)))
  }

  /**
   * Opening a priced row for editing and submitting it untouched writes back
   * the row it was opened from.
   */
  lemma UnchangedEditKeepsRow(o: Order)
    requires Priced(o) && o.status.Some? && o.quantity.Some? && o.quantity.value != 0.0
    ensures Submission(o.name, o.email, o.serviceType, QuantityField(o.quantity),
                       o.pickupDate, o.pickupTime, o.status.GetOr(Pending)) == o
  {
  }

  /** A row that was opened with a missing or zero quantity cannot be resubmitted untouched. */
  lemma UnchangedEditNeedsQuantity(o: Order)
    requires o.quantity.None? || o.quantity == Some(0.0)
    ensures !OrderFieldsComplete(o.name, o.email, o.serviceType, o.pickupDate, o.pickupTime,
                                 QuantityField(o.quantity))
  {
  }

  /** Creating a two-piece dry-cleaning order stores it pending at 300. */
  lemma CreateExample()
    ensures var o := Submission("A", "a@x.com", "Dry Cleaning", Some(2.0), "2024-01-01", "09:00", Pending);
            o.status == Some(Pending) && o.total == Some(300.0)
  {
  }

  /** Every row of the table satisfies the pricing rule. */
  ghost predicate AllPriced(t: Table<Order>) {
    forall id :: id in t.Map() ==> Priced(t.Map()[id])
  }

  /** The dashboard's writes keep every row of the orders table priced. */
  lemma SubmissionsKeepTablePriced(t: Table<Order>, id: Id, o: Order)
    requires AllPriced(t) && Priced(o)
    ensures AllPriced(t.Insert(o))
    ensures AllPriced(t.Update(id, o))
    ensures AllPriced(t.Delete(id))
  {
  }

  class Dashboard {
    const db: Store

    var stats: Stats
    var recentOrders: seq<(Id, Order)>
    var modalOpen: bool
    var editingId: Option<Id>

    // the order form
    var name: string
    var email: string
    var service: string
    var quantity: Option<real>
    var pickupDate: string
    var pickupTime: string
    var status: Status
    var total: real

    /** A form that is not editing an existing order holds status Pending: the status control is only shown when editing. */
    ghost predicate Valid()
      reads this, db
    {
      db.Valid() && (editingId.None? ==> status == Pending)
    }

    constructor (db: Store)
      requires db.Valid()
      ensures Valid() && this.db == db
      ensures stats == Stats(0, 0, 0, 0.0, 0, 0) && recentOrders == [] && !modalOpen && editingId.None?
      ensures name == email == service == pickupDate == pickupTime == ""
      ensures quantity.None? && status == Pending && total == 0.0
    {
      this.db := db;
      stats := Stats(0, 0, 0, 0.0, 0, 0);
      recentOrders := [];
      modalOpen := false;
      editingId := None;
      name, email, service, pickupDate, pickupTime := "", "", "", "", "";
      quantity := None;
      status := Pending;
      total := 0.0;
    }

    /** `fetchDashboardData`: on a successful read the cards and the list show the store as it is now. */
    method FetchDashboardData(readOk: bool)
      modifies this`stats, this`recentOrders
      ensures readOk ==> stats == ComputeStats(Values(db.customers.rows), |db.staff.rows|, |db.admins.rows|)
      ensures readOk ==> recentOrders == db.customers.rows
      ensures !readOk ==> stats == old(stats) && recentOrders == old(recentOrders)
    {
      if readOk {
        var customers := db.customers.rows;
        stats := ComputeStats(Values(customers), |db.staff.rows|, |db.admins.rows|);
        recentOrders := customers;
      }
    }

    /** `openModal(order)` copies the row into the form; `openModal()` clears the form for a new order. */
    method OpenModal(order: Option<(Id, Order)>)
      requires Valid()
      modifies this`editingId, this`name, this`email, this`service, this`quantity,
               this`pickupDate, this`pickupTime, this`status, this`total, this`modalOpen
      ensures Valid() && modalOpen
      ensures order.Some? ==>
        var (id, o) := order.value;
        && editingId == Some(id)
        && name == o.name && email == o.email && service == o.serviceType
        && quantity == QuantityField(o.quantity)
        && pickupDate == o.pickupDate && pickupTime == o.pickupTime
        && status == o.status.GetOr(Pending)
        && total == TotalOrZero(o)
      ensures order.None? ==>
        && editingId.None?
        && name == email == service == pickupDate == pickupTime == ""
        && quantity.None? && status == Pending && total == 0.0
    {
      if order.Some? {
        var (id, o) := order.value;
        editingId := Some(id);
        name := o.name;
        email := o.email;
        service := o.serviceType;
        quantity := QuantityField(o.quantity);
        pickupDate := o.pickupDate;
        pickupTime := o.pickupTime;
        status := o.status.GetOr(Pending);
        total := o.total.GetOr(0.0);
      } else {
        editingId := None;
        name, email, service, pickupDate, pickupTime := "", "", "", "", "";
        quantity := None;
        status := Pending;
        total := 0.0;
      }
      modalOpen := true;
    }

    /** Choosing a service re-prices the displayed total. */
    method SetService(s: string)
      modifies this`service, this`total
      ensures service == s && total == CalculateTotal(s, quantity)
    {
      service := s;
      total := CalculateTotal(s, quantity);
    }

    /** Typing a quantity re-prices the displayed total. */
    method SetQuantity(q: Option<real>)
      modifies this`quantity, this`total
      ensures quantity == q && total == CalculateTotal(service, q)
    {
      quantity := q;
      total := CalculateTotal(service, q);
    }

    /** The status select, which is rendered only while an existing order is being edited. */
    method SetStatus(st: Status)
      requires Valid() && editingId.Some?
      modifies this`status
      ensures Valid() && status == st
    {
      status := st;
    }

    /**
     * `handleSubmit`: rejects an incomplete form; otherwise updates the order
     * being edited or inserts a new pending one, with the total recomputed.
     * After a successful write the data is re-read and the modal closes; after
     * a failed one the modal stays open.
     */
    method HandleSubmit(writeOk: bool, readOk: bool) returns (outcome: Outcome)
      requires Valid()
      modifies this`stats, this`recentOrders, this`modalOpen, db`customers
      ensures Valid()
      ensures !OrderFieldsComplete(name, email, service, pickupDate, pickupTime, quantity) ==>
        && outcome == Invalid
        && db.customers == old(db.customers)
        && stats == old(stats) && recentOrders == old(recentOrders) && modalOpen == old(modalOpen)
      ensures OrderFieldsComplete(name, email, service, pickupDate, pickupTime, quantity) ==>
        && outcome == (if writeOk then Succeeded else Failed)
        && db.customers == (
             if !writeOk then old(db.customers)
             else if editingId.Some? then
               old(db.customers).Update(editingId.value,
                 Submission(name, email, service, quantity, pickupDate, pickupTime, status))
             else
               old(db.customers).Insert(
                 Submission(name, email, service, quantity, pickupDate, pickupTime, Pending)))
        && modalOpen == (if writeOk then false else old(modalOpen))
        && (writeOk && readOk ==>
              stats == ComputeStats(Values(db.customers.rows), |db.staff.rows|, |db.admins.rows|)
              && recentOrders == db.customers.rows)
        && (!(writeOk && readOk) ==> stats == old(stats) && recentOrders == old(recentOrders))
    {
      if !OrderFieldsComplete(name, email, service, pickupDate, pickupTime, quantity) {
        return Invalid;
      }
      var calculatedTotal := CalculateTotal(service, quantity);
      var row := Order(name, email, service, quantity, pickupDate, pickupTime, Some(status),
                       Some(calculatedTotal));
      if !writeOk {
        return Failed;
      }
      if editingId.Some? {
        db.customers := db.customers.Update(editingId.value, row);
      } else {
        db.customers := db.customers.Insert(row);
      }
      FetchDashboardData(readOk);
      modalOpen := false;
      outcome := Succeeded;
    }

    /** `handleDelete(id)`: after confirmation, deletes the row and re-reads on success. */
    method HandleDelete(id: Id, confirmed: bool, writeOk: bool, readOk: bool) returns (outcome: Outcome)
      requires Valid()
      modifies this`stats, this`recentOrders, db`customers
      ensures Valid()
      ensures outcome == (if !confirmed then Cancelled else if writeOk then Succeeded else Failed)
      ensures db.customers == if outcome == Succeeded then old(db.customers).Delete(id) else old(db.customers)
      ensures outcome == Succeeded && readOk ==>
        stats == ComputeStats(Values(db.customers.rows), |db.staff.rows|, |db.admins.rows|)
        && recentOrders == db.customers.rows
      ensures !(outcome == Succeeded && readOk) ==> stats == old(stats) && recentOrders == old(recentOrders)
    {
      if !confirmed {
        return Cancelled;
      }
      if !writeOk {
        return Failed;
      }
      db.customers := db.customers.Delete(id);
      FetchDashboardData(readOk);
      outcome := Succeeded;
    }
  }
}
