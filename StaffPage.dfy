/**
 * The staff roster screen: the staff list and the add/edit staff modal. All
 * four form fields are required; after a submit that passes validation the
 * list is re-read and the modal closes whether or not the write succeeded.
 */
module StaffPage {
  import opened Wrappers
  import opened RecordStore
  import opened Roster
  import opened Backend

  /** The four fields the staff form requires. */
  predicate StaffFieldsComplete(name: string, email: string, phone: string, role: string) {
    name != "" && email != "" && role != "" && phone != ""
  }

  class StaffScreen {
    const db: Store

    var staffList: seq<(Id, StaffMember)>
    var modalOpen: bool
    var editingId: Option<Id>

    // the staff form
    var name: string
    var email: string
    var phone: string
    var role: string

    ghost predicate Valid()
      reads this, db
    {
      db.Valid()
    }

    constructor (db: Store)
      requires db.Valid()
      ensures Valid() && this.db == db
      ensures staffList == [] && !modalOpen && editingId.None?
      ensures name == email == phone == role == ""
    {
      this.db := db;
      staffList := [];
      modalOpen := false;
      editingId := None;
      name, email, phone, role := "", "", "", "";
    }

    /** `fetchStaff`: on a successful read the list shows the staff table newest first. */
    method FetchStaff(readOk: bool)
      modifies this`staffList
      ensures staffList == if readOk then db.staff.rows else old(staffList)
    {
      if readOk {
        staffList := db.staff.rows;
      }
    }

    /** `openModal(staff)` copies the row into the form; `openModal()` clears it so the next submit inserts. */
    method OpenModal(staff: Option<(Id, StaffMember)>)
      modifies this`editingId, this`name, this`email, this`phone, this`role, this`modalOpen
      ensures modalOpen
      ensures staff.Some? ==>
        var (id, s) := staff.value;
        editingId == Some(id) && StaffMember(name, email, phone, role) == s
      ensures staff.None? ==> editingId.None? && name == email == phone == role == ""
    {
      if staff.Some? {
        var (id, s) := staff.value;
        editingId := Some(id);
        name := s.name;
        email := s.email;
        phone := s.phone;
        role := s.role;
      } else {
        editingId := None;
        name, email, phone, role := "", "", "", "";
      }
      modalOpen := true;
    }

    /**
     * `handleSubmit`: rejects an incomplete form; otherwise writes name, email,
     * phone and role to the row being edited, or inserts them as a new row, and
     * then re-reads and closes the modal even when the write failed.
     */
    method HandleSubmit(writeOk: bool, readOk: bool) returns (outcome: Outcome)
      requires Valid()
      modifies this`staffList, this`modalOpen, db`staff
      ensures Valid()
      ensures !StaffFieldsComplete(name, email, phone, role) ==>
        && outcome == Invalid
        && db.staff == old(db.staff) && staffList == old(staffList) && modalOpen == old(modalOpen)
      ensures StaffFieldsComplete(name, email, phone, role) ==>
        && outcome == (if writeOk then Succeeded else Failed)
        && db.staff == (
             if !writeOk then old(db.staff)
             else if editingId.Some? then old(db.staff).Update(editingId.value, StaffMember(name, email, phone, role))
             else old(db.staff).Insert(StaffMember(name, email, phone, role)))
        && staffList == (if readOk then db.staff.rows else old(staffList))
        && !modalOpen
    {
      if !StaffFieldsComplete(name, email, phone, role) {
        return Invalid;
      }
      var row := StaffMember(name, email, phone, role);
      if editingId.Some? {
        if writeOk {
          db.staff := db.staff.Update(editingId.value, row);
        }
      } else {
        if writeOk {
          db.staff := db.staff.Insert(row);
        }
      }
      outcome := if writeOk then Succeeded else Failed;
      FetchStaff(readOk);
      modalOpen := false;
    }

    /** `handleDelete(id)`: after confirmation, deletes the row and re-reads on success. */
    method HandleDelete(id: Id, confirmed: bool, writeOk: bool, readOk: bool) returns (outcome: Outcome)
      requires Valid()
      modifies this`staffList, db`staff
      ensures Valid()
      ensures outcome == (if !confirmed then Cancelled else if writeOk then Succeeded else Failed)
      ensures db.staff == if outcome == Succeeded then old(db.staff).Delete(id) else old(db.staff)
      ensures staffList == if outcome == Succeeded && readOk then db.staff.rows else old(staffList)
    {
      if !confirmed {
        return Cancelled;
      }
      if !writeOk {
        return Failed;
      }
      db.staff := db.staff.Delete(id);
      FetchStaff(readOk);
      outcome := Succeeded;
    }
  }
}
