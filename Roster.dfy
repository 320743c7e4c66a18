/**
 * Staff and admin rows, and the two display rules of their tables: the staff
 * role badge and the admin phone cell.
 */
module Roster {
  import opened Wrappers

  /** A row of the `staff` table. Every column is required by the staff form. */
  datatype StaffMember = StaffMember(name: string, email: string, phone: string, role: string)

  /** A row of the `admin` table. The phone column is optional and may be null. */
  datatype AdminRecord = AdminRecord(name: string, email: string, phone: Option<string>)

  const LaundryAttendant: string := "Laundry Attendant / Washer"
  const IroningAttendant: string := "Ironing Attendant / Presser"
  const DryCleaningOperator: string := "Dry Cleaning Operator"

  /** The roles the staff table knows how to colour. */
  function KnownRoles(): set<string> {
    {LaundryAttendant, IroningAttendant, DryCleaningOperator}
  }

  /** The colour of a role badge: blue, amber and green for the known roles, grey otherwise. */
  datatype Badge = Blue | Amber | Green | Grey

  /** The role column's badge style. */
  function RoleBadge(role: string): (b: Badge)
    ensures b == Grey <==> role !in KnownRoles()
  {
    if role == LaundryAttendant then Blue
    else if role == IroningAttendant then Amber
    else if role == DryCleaningOperator then Green
    else Grey
  }

  /** Different known roles never share a badge style. */
  lemma KnownRolesHaveDistinctBadges(r1: string, r2: string)
    requires r1 in KnownRoles() && r2 in KnownRoles()
    ensures RoleBadge(r1) == RoleBadge(r2) <==> r1 == r2
  {
  }

  /** The admin table's phone cell: the phone, or "-" when it is missing or empty. */
  function PhoneCell(phone: Option<string>): (cell: string)
    ensures cell != ""
    ensures phone.Some? && phone.value != "" ==> cell == phone.value
    ensures cell == "-" <==> phone.None? || phone.value == "" || phone.value == "-"
  {
    if phone.Some? && phone.value != "" then phone.value else "-"
  }
}
