/**
 * The hosted database the pages share: the `customers` (orders), `staff` and
 * `admin` tables. It is one object, so a write made from one page is what the
 * next read from any page sees.
 */
module Backend {
  import opened RecordStore
  import opened Orders
  import opened Roster

  class Store {
    var customers: Table<Order>
    var staff: Table<StaffMember>
    var admins: Table<AdminRecord>

    ghost predicate Valid()
      reads this
    {
      customers.Valid() && staff.Valid() && admins.Valid()
    }

    constructor ()
      ensures Valid()
      ensures customers.rows == [] && staff.rows == [] && admins.rows == []
    {
      customers := Table.Empty();
      staff := Table.Empty();
      admins := Table.Empty();
    }
  }
}
