/**
 * The admin roster screen: the admin list and the add/edit admin modal. Only
 * name and email are required; the phone may be left empty. As on the staff
 * screen, a submit that passes validation always ends with a re-read and a
 * closed modal.
 */
module AdminPage {
  import opened Wrappers
  import opened RecordStore
  import opened Roster
  import opened Backend

  /** The two fields the admin form requires; the phone is optional and takes no part. */
  predicate AdminFieldsComplete(name: string, email: string) {
    name != "" && email != ""
  }

  /** The row the admin form writes: the phone is always sent, as "" when left empty. */
  function AdminRow(name: string, email: string, phone: string): (a: AdminRecord)
    ensures a.name == name && a.email == email && a.phone == Some(phone)
  {
    AdminRecord(name, email, Some(phone))
  }

  /** Opening a row for editing and saving it untouched writes back the row, except that a null phone becomes "". */
  lemma UnchangedEditKeepsRow(a: AdminRecord)
    ensures AdminRow(a.name, a.email, a.phone.GetOr("")) == a.(phone := Some(a.phone.GetOr("")))
    ensures a.phone.Some? ==> AdminRow(a.name, a.email, a.phone.GetOr("")) == a
    ensures PhoneCell(AdminRow(a.name, a.email, a.phone.GetOr("")).phone) == PhoneCell(a.phone)
  {
  }

  class AdminScreen {
    const db: Store

    var admins: seq<(Id, AdminRecord)>
    var modalOpen: bool
    var editingId: Option<Id>

    // the admin form
    var name: string
    var email: string
    var phone: string

    ghost predicate Valid()
      reads this, db
    {
      db.Valid()
    }

    constructor (db: Store)
      requires db.Valid()
      ensures Valid() && this.db == db
      ensures admins == [] && !modalOpen && editingId.None?
      ensures name == email == phone == ""
    {
      this.db := db;
      admins := [];
      modalOpen := false;
      editingId := None;
      name, email, phone := "", "", "";
    }

    /** `fetchAdmins`: on a successful read the list shows the admin table newest first. */
    method FetchAdmins(readOk: bool)
      modifies this`admins
      ensures admins == if readOk then db.admins.rows else old(admins)
    {
      if readOk {
        admins := db.admins.rows;
      }
    }

    /** `openModal(admin)` copies the row, with "" for a missing phone; `openModal()` clears the form so the next submit inserts. */
    method OpenModal(admin: Option<(Id, AdminRecord)>)
      modifies this`editingId, this`name, this`email, this`phone, this`modalOpen
      ensures modalOpen
      ensures admin.Some? ==>
        var (id, a) := admin.value;
        && editingId == Some(id) && name == a.name && email == a.email
        && phone == (if a.phone.Some? then a.phone.value else "")
      ensures admin.None? ==> editingId.None? && name == email == phone == ""
    {
      if admin.Some? {
        var (id, a) := admin.value;
        editingId := Some(id);
        name := a.name;
        email := a.email;
        phone := a.phone.GetOr("");
      } else {
        editingId := None;
        name, email, phone := "", "", "";
      }
      modalOpen := true;
    }

    /**
     * `handleSubmit`: rejects a form without name or email; otherwise writes
     * name, email and phone to the row being edited, or inserts them as a new
     * row, and then re-reads and closes the modal even when the write failed.
     */
    method HandleSubmit(writeOk: bool, readOk: bool) returns (outcome: Outcome)
      requires Valid()
      modifies this`admins, this`modalOpen, db`admins
      ensures Valid()
      ensures !AdminFieldsComplete(name, email) ==>
        && outcome == Invalid
        && db.admins == old(db.admins) && admins == old(admins) && modalOpen == old(modalOpen)
      ensures AdminFieldsComplete(name, email) ==>
        && outcome == (if writeOk then Succeeded else Failed)
        && db.admins == (
             if !writeOk then old(db.admins)
             else if editingId.Some? then old(db.admins).Update(editingId.value, AdminRow(name, email, phone))
             else old(db.admins).Insert(AdminRow(name, email, phone)))
        && admins == (if readOk then db.admins.rows else old(admins))
        && !modalOpen
    {
      if !AdminFieldsComplete(name, email) {
        return Invalid;
      }
      if editingId.Some? {
        if writeOk {
          db.admins := db.admins.Update(editingId.value, AdminRow(name, email, phone));
        }
      } else {
        if writeOk {
          db.admins := db.admins.Insert(AdminRow(name, email, phone));
        }
      }
      outcome := if writeOk then Succeeded else Failed;
      FetchAdmins(readOk);
      modalOpen := false;
    }

    /** `handleDelete(id)`: after confirmation, deletes the row and re-reads on success. */
    method HandleDelete(id: Id, confirmed: bool, writeOk: bool, readOk: bool) returns (outcome: Outcome)
      requires Valid()
      modifies this`admins, db`admins
      ensures Valid()
      ensures outcome == (if !confirmed then Cancelled else if writeOk then Succeeded else Failed)
      ensures db.admins == if outcome == Succeeded then old(db.admins).Delete(id) else old(db.admins)
      ensures admins == if outcome == Succeeded && readOk then db.admins.rows else old(admins)
    {
      if !confirmed {
        return Cancelled;
      }
      if !writeOk {
        return Failed;
      }
      db.admins := db.admins.Delete(id);
      FetchAdmins(readOk);
      outcome := Succeeded;
    }
  }
}
