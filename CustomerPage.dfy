/**
 * The customer-orders screen: the order list with pickup date and time, the
 * edit modal for quantity, total and status, and deletion. Unlike the
 * dashboard, this screen saves whatever total the user typed; it does not
 * re-price the order.
 */
module CustomerPage {
  import opened Wrappers
  import opened RecordStore
  import opened Orders
  import opened Backend

  /** The edit modal's three fields. */
  datatype EditForm = EditForm(quantity: Option<real>, total: Option<real>, status: Option<Status>)

  /** What `openEditModal(customer)` puts into the edit form: the row's three editable columns. */
  function FormOf(o: Order): (f: EditForm)
    ensures f.quantity == o.quantity && f.total == o.total && f.status == o.status
  {
    EditForm(o.quantity, o.total, o.status)
  }

  /** The row after `update({ quantity, total, status })`: those three columns change, no other does. */
  function ApplyEdit(o: Order, f: EditForm): (r: Order)
    ensures r.quantity == f.quantity && r.total == f.total && r.status == f.status
    ensures r.name == o.name && r.email == o.email && r.serviceType == o.serviceType
    ensures r.pickupDate == o.pickupDate && r.pickupTime == o.pickupTime
  {
    o.(quantity := f.quantity, total := f.total, status := f.status)
  }

  /**
   * The orders table after a saved edit of the row under `id`: that row gets
   * the form's three fields; an id the table no longer holds changes nothing.
   */
  function SaveEdit(t: Table<Order>, id: Id, f: EditForm): (r: Table<Order>)
    ensures t.Valid() ==> r.Valid()
    ensures r.Map() == if id in t.Map() then t.Map()[id := ApplyEdit(t.Map()[id], f)] else t.Map()
  {
    if id in t.Map() then t.Update(id, ApplyEdit(t.Map()[id], f)) else t
  }

  /** Saving the edit form as it was opened leaves the row as it was. */
  lemma SavingUntouchedFormKeepsRow(o: Order)
    ensures ApplyEdit(o, FormOf(o)) == o
  {
  }

  /** Saving twice is saving once. */
  lemma SavingIsIdempotent(o: Order, f: EditForm)
    ensures ApplyEdit(ApplyEdit(o, f), f) == ApplyEdit(o, f)
  {
  }

  /** Changing only the quantity keeps the old total: nothing re-prices the order on this screen. */
  lemma QuantityEditKeepsTotal(o: Order, q: Option<real>)
    ensures ApplyEdit(o, FormOf(o).(quantity := q)).total == o.total
  {
  }

  /** So an edit on this screen can leave a priced order with a total that no longer matches its price. */
  lemma EditCanBreakPricing()
    ensures var o := Order("A", "a@x.com", "Wash & Fold", Some(2.0), "2024-01-01", "09:00",
                           Some(Pending), Some(100.0));
            Priced(o) && !Priced(ApplyEdit(o, FormOf(o).(quantity := Some(3.0))))
  {
  }

  /**
   * `formatPHDateTime(date, time)`: the placeholder pair when either part is
   * missing; otherwise what the locale formatter `render` makes of them.
   */
  function FormatPHDateTime(date: string, time: string, render: (string, string) -> (string, string)): (r: (string, string))
    ensures date == "" || time == "" ==> r == ("-", "-")
    ensures date != "" && time != "" ==> r == render(date, time)
  {
    if date == "" || time == "" then ("-", "-") else render(date, time)
  }

  class CustomerScreen {
    const db: Store

    var customers: seq<(Id, Order)>
    var selected: Option<(Id, Order)>
    var editForm: EditForm
    var editModalOpen: bool

    ghost predicate Valid()
      reads this, db
    {
      db.Valid()
    }

    constructor (db: Store)
      requires db.Valid()
      ensures Valid() && this.db == db
      ensures customers == [] && selected.None? && !editModalOpen
      ensures editForm == EditForm(None, None, None)
    {
      this.db := db;
      customers := [];
      selected := None;
      editForm := EditForm(None, None, None);
      editModalOpen := false;
    }

    /** `fetchCustomers`: on a successful read the list shows the orders table newest first. */
    method FetchCustomers(readOk: bool)
      modifies this`customers
      ensures customers == if readOk then db.customers.rows else old(customers)
    {
      if readOk {
        customers := db.customers.rows;
      }
    }

    /** `openEditModal(customer)`: remembers the row and copies its quantity, total and status. */
    method OpenEditModal(customer: (Id, Order))
      modifies this`selected, this`editForm, this`editModalOpen
      ensures selected == Some(customer) && editForm == FormOf(customer.1) && editModalOpen
    {
      selected := Some(customer);
      editForm := EditForm(customer.1.quantity, customer.1.total, customer.1.status);
      editModalOpen := true;
    }

    /** Typing in the quantity field changes only the quantity; the total field is left as typed. */
    method SetEditQuantity(q: Option<real>)
      modifies this`editForm
      ensures editForm == old(editForm).(quantity := q)
    {
      editForm := editForm.(quantity := q);
    }

    method SetEditTotal(t: Option<real>)
      modifies this`editForm
      ensures editForm == old(editForm).(total := t)
    {
      editForm := editForm.(total := t);
    }

    method SetEditStatus(st: Status)
      modifies this`editForm
      ensures editForm == old(editForm).(status := Some(st))
    {
      editForm := editForm.(status := Some(st));
    }

    /**
     * `handleSaveEdit` from the modal's save button (the modal, and so the
     * button, is only shown once a row is selected): writes the form's
     * quantity, total and status to the selected row. On success the modal
     * closes and the list is re-read; on failure nothing changes.
     */
    method HandleSaveEdit(writeOk: bool, readOk: bool) returns (outcome: Outcome)
      requires Valid() && selected.Some?
      modifies this`customers, this`editModalOpen, db`customers
      ensures Valid()
      ensures outcome == if writeOk then Succeeded else Failed
      ensures db.customers == if writeOk then SaveEdit(old(db.customers), selected.value.0, editForm) else old(db.customers)
      ensures editModalOpen == (if writeOk then false else old(editModalOpen))
      ensures customers == if writeOk && readOk then db.customers.rows else old(customers)
    {
      if !writeOk {
        return Failed;
      }
      var saved := SaveEdit(db.customers, selected.value.0, editForm);
      assert saved.Valid();
      db.customers := saved;
      assert db.Valid();
      outcome := Succeeded;
      editModalOpen := false;
      FetchCustomers(readOk);
    }

    /** `handleDelete(id)`: after confirmation, deletes the row and re-reads on success; on error the list stays. */
    method HandleDelete(id: Id, confirmed: bool, writeOk: bool, readOk: bool) returns (outcome: Outcome)
      requires Valid()
      modifies this`customers, db`customers
      ensures Valid()
      ensures outcome == (if !confirmed then Cancelled else if writeOk then Succeeded else Failed)
      ensures db.customers == if outcome == Succeeded then old(db.customers).Delete(id) else old(db.customers)
      ensures customers == if outcome == Succeeded && readOk then db.customers.rows else old(customers)
    {
      if !confirmed {
        return Cancelled;
      }
      if !writeOk {
        return Failed;
      }
      db.customers := db.customers.Delete(id);
      FetchCustomers(readOk);
      outcome := Succeeded;
    }
  }
}
