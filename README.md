# Laundry shop management: order pricing, statistics and roster forms

This project models the business rules of a laundry-shop management web
front end. The front end is a set of screens over a hosted database with three
tables: `customers` (laundry orders), `staff` and `admin`. The model covers:

- the **pricing rule**: 50 per unit for Wash & Fold, 30 for Ironing & Pressing
  and 150 for Dry Cleaning, times the quantity, and 0 for an empty or unknown
  input;
- the **dashboard**: the statistics cards (order count, completed and pending
  counts, revenue, staff and admin counts) and the create/edit order modal,
  which validates six fields, re-prices the order on submit and creates orders
  as Pending;
- the **admin dashboard**: four figures, each from its own read, each falling
  back to 0 when its read yields nothing;
- the **staff and admin rosters**: required-field checks, modal reset and
  copy, update-by-id payloads, deletion and the two display rules (role badge,
  phone cell);
- the **customer-orders screen**: the edit modal that writes only quantity,
  total and status, deletion, and the pickup formatter's placeholder.

Structure:

- `RecordStore` models one table of the hosted database. It keeps the rows
  newest first, the `created_at` descending order of every read whose rows a
  screen lists, plus the id the next insert receives. The reads behind the
  counts and the revenue ask for no order: the staff and admin reads at
  src/pages/Dashboard.jsx:58 and 61, and the order, revenue, customer and
  staff reads at src/pages/AdminDashboard.jsx:27, 30-32, 39 and 42-44. What
  they yield does not depend on order. For the dashboard's statistics,
  `OrderStats.StatsIgnoreListingOrder` states this. For the admin dashboard's
  revenue, `AdminDashboardPage.RevenueAgrees` equates it with the dashboard's
  revenue fold, which `OrderStats.RevenuePermutation` shows order-free; the
  three counts are lengths. `Table.Map()` is the abstract id-keyed table.
  `Insert`, `Update` and `Delete` are proved against that map.
- `Backend.Store` is the shared database object holding the three tables.
- `Orders` holds the order row, the service and status enumerations and
  `CalculateTotal`. `OrderStats` holds the statistics.
- There is one module and one class per screen: `DashboardPage.Dashboard`,
  `AdminDashboardPage.AdminDashboard`, `StaffPage.StaffScreen`,
  `AdminPage.AdminScreen` and `CustomerPage.CustomerScreen`. A screen's state
  variables are the class's fields. Its handlers are methods that change those
  fields and the store. A handler's contract states the store's new table and
  the screen's new state.

Things a handler cannot decide itself are boolean parameters:

- whether the store accepts a write (`writeOk`);
- whether the re-read that follows succeeds (`readOk`);
- whether the user confirms a deletion (`confirmed`).

The toast a handler shows is returned as an `Outcome`.

Representation choices:

- Text columns hold `""` for both null and empty. The pages use them in three
  ways, and each treats null and `""` alike:
  - a truthiness test or an `|| default`;
  - a comparison with a non-empty literal, such as the service type at
    src/pages/Dashboard.jsx:115-117 or the role at src/pages/Staff.jsx:149-153;
  - copying into form state or displaying.
- Nullable numbers are `Option<real>`: the `quantity` and `total` columns and
  the form's quantity field, where `None` is the empty field. The admin phone
  is `Option<string>`.
- Status is `Option<Status>`. Each of the three status selects offers only
  "Pending" and "Completed" (src/pages/Dashboard.jsx:547-554,
  src/pages/Customer.jsx:307-313 and src/pages/Customer.jsx:186-195).
- Quantities and totals are exact reals.
- Store ids are positive, so a held editing id is always truthy.

Behaviour of the code worth knowing:

- The dashboard re-prices the order on every submit, and its total field is
  read-only (src/pages/Dashboard.jsx:128 and 511-517). The customer-orders edit
  screen saves the total the user typed (src/pages/Customer.jsx:56-64 and
  296-299). `CustomerPage.QuantityEditKeepsTotal` and
  `CustomerPage.EditCanBreakPricing` state this.
  `DashboardPage.SubmissionsKeepTablePriced` shows that the dashboard's own
  writes keep every row priced.
- No screen checks that a quantity is positive. The number inputs have no
  `min` (src/pages/Dashboard.jsx:499-507, src/pages/Customer.jsx:284-287).
  So the model accepts any number.
- The admin dashboard takes the staff count from a counted read that may be
  absent (src/pages/AdminDashboard.jsx:42-45). It shows no admin count.

## Model

| member | source | states |
|---|---|---|
| `RecordStore.Contents` | src/pages/Dashboard.jsx:52-55 | the id-keyed view of a listing has exactly the listing's ids as keys |
| `RecordStore.Values` | src/pages/Dashboard.jsx:64-73 | the rows of a listing, one per entry, in listing order |
| `RecordStore.Replace` | src/pages/Staff.jsx:64-67 | update-by-id on a listing: same length; an entry with that id gets the new row; every other entry is untouched |
| `RecordStore.Remove` | src/pages/Staff.jsx:84 | delete-by-id never lengthens the listing; which entries it keeps is stated by `RemoveFilters`, `RemoveContents` and `RemoveAt` |
| `RecordStore.RemoveFilters` | src/pages/Staff.jsx:84 | delete-by-id keeps exactly the entries whose id differs, and no entry with that id |
| `RecordStore.ReplaceContents` | src/pages/Dashboard.jsx:132-144 | update-by-id on the abstract table: the row under the id becomes the new row if the id is present; otherwise nothing changes |
| `RecordStore.RemoveContents` | src/pages/Customer.jsx:46 | delete-by-id on the abstract table removes exactly that key |
| `RecordStore.RemoveNewestFirst` | src/pages/Customer.jsx:27-30 | a delete keeps the listing in newest-first order |
| `RecordStore.ContentsAt` | src/pages/Dashboard.jsx:52-55 | in a newest-first listing each row is what the table holds under its id |
| `RecordStore.ReplaceAt` | src/pages/Admin.jsx:59-62 | updating by the id of a row rewrites exactly that one row of the listing |
| `RecordStore.RemoveAt` | src/pages/Admin.jsx:79 | deleting by the id of a row cuts exactly that one row out of the listing, keeping the order of the rest |
| `RecordStore.RemoveAbsent` | src/pages/Customer.jsx:46 | deleting an id that no row has leaves the listing unchanged |
| `RecordStore.Table.Insert` | src/pages/Dashboard.jsx:148-159 | an insert gives the row an id no row had, adds it to the map under that id, lists it first, and keeps the table well-formed |
| `RecordStore.Table.Update` | src/pages/Dashboard.jsx:132-144 | update-by-id changes the map only under that id, and only if the id is present; the row count is unchanged and the table stays well-formed |
| `RecordStore.Table.Delete` | src/pages/Dashboard.jsx:175 | delete-by-id removes exactly that id from the map and keeps the table well-formed |
| `RecordStore.Table.Empty` | src/pages/Dashboard.jsx:52-55 | a table no row has been inserted into is well-formed, maps no id and lists nothing, so a first read shows an empty list |
| `Backend.Store.constructor` | src/pages/Dashboard.jsx:16 | a fresh store holds three empty, well-formed tables; the screens accept any well-formed store, not only a fresh one |
| `Orders.ParseService` | src/pages/Dashboard.jsx:489-491 | the three option values and the three services correspond one to one; any other text names no service |
| `Orders.CalculateTotal` | src/pages/Dashboard.jsx:113-119 | a service the form offers, with a quantity, costs quantity × its rate from the rate table; an empty quantity, or a service text the form does not offer (including empty), costs 0. The lemmas below restate this per case |
| `Orders.PriceFollowsRateTable` | src/pages/Dashboard.jsx:115-117 | a known service costs quantity × its advertised rate (50, 30, 150) |
| `Orders.UnknownServiceCostsNothing` | src/pages/Dashboard.jsx:118 | a service text other than the three labels costs 0 whatever the quantity |
| `Orders.EmptyInputCostsNothing` | src/pages/Dashboard.jsx:114 | an empty service or an empty quantity costs 0 |
| `Orders.PriceIsAdditive` | src/pages/Dashboard.jsx:113-119 | the price is linear in the quantity for every service text |
| `Orders.PriceIsNonNegative` | src/pages/Dashboard.jsx:113-119 | a non-negative quantity never gives a negative total |
| `Orders.PriceExamples` | src/pages/Dashboard.jsx:113-119 | 3 × Wash & Fold = 150, 2 × Dry Cleaning = 300, 4 × Ironing & Pressing = 120, no service or no quantity = 0 |
| `OrderStats.CountStatus` | src/pages/Dashboard.jsx:66-67 | a status count never exceeds the number of orders |
| `OrderStats.ComputeStats` | src/pages/Dashboard.jsx:64-71 | totalOrders is the number of orders, and completed + pending never exceeds it |
| `OrderStats.Revenue` | src/pages/Dashboard.jsx:68 | no orders give revenue 0, and orders whose totals are all non-negative never give a negative revenue; `RevenueCons`, `RevenueSplit` and `RevenuePermutation` state its sum laws |
| `OrderStats.RevenueFrom` | src/pages/Dashboard.jsx:68 | the left fold from a running sum returns that sum on no orders and never drops below it when every total is non-negative |
| `OrderStats.KnownStatusesFillTotal` | src/pages/Dashboard.jsx:65-67 | completed + pending ≤ totalOrders, with equality exactly when every order has a status |
| `OrderStats.StatsOfNoOrders` | src/pages/Dashboard.jsx:64-71 | no orders gives zero counts and zero revenue, with the staff and admin counts passed through |
| `OrderStats.RevenueFromShift` | src/pages/Dashboard.jsx:68 | the revenue fold from any start value is that value plus the revenue |
| `OrderStats.RevenueCons` | src/pages/Dashboard.jsx:68 | revenue is the first order's total (0 if missing) plus the revenue of the rest |
| `OrderStats.RevenueSplit` | src/pages/Dashboard.jsx:68 | revenue of two listings joined is the sum of their revenues |
| `OrderStats.CountSplit` | src/pages/Dashboard.jsx:66-67 | a status count over two listings joined is the sum of their counts |
| `OrderStats.RevenuePermutation` | src/pages/Dashboard.jsx:68 | revenue does not depend on the order of the rows |
| `OrderStats.CountPermutation` | src/pages/Dashboard.jsx:66-67 | the status counts do not depend on the order of the rows |
| `OrderStats.StatsIgnoreListingOrder` | src/pages/Dashboard.jsx:52-71 | any two listings of the same rows give the same statistics, so the created_at ordering does not matter |
| `OrderStats.CountAfterSet` | src/pages/Dashboard.jsx:66-67 | rewriting one order moves a status count by its old and new tallies only |
| `OrderStats.RevenueAfterSet` | src/pages/Dashboard.jsx:68 | rewriting one order moves revenue by its old and new totals only |
| `OrderStats.CountAfterCut` | src/pages/Dashboard.jsx:66-67 | removing one order removes its tally from a status count |
| `OrderStats.RevenueAfterCut` | src/pages/Dashboard.jsx:68 | removing one order removes its total from revenue |
| `OrderStats.StatsAfterUpdate` | src/pages/Dashboard.jsx:132-144 | after an update the order count is unchanged, and each count and the revenue change by the old and new row's contributions |
| `OrderStats.StatusRevertReflected` | src/pages/Dashboard.jsx:547-554 | setting a Completed order back to Pending moves one order from the completed count to the pending count; order count and revenue stay |
| `OrderStats.StatsAfterInsert` | src/pages/Dashboard.jsx:148-159 | an insert adds one order, its status to its count and its total to revenue |
| `OrderStats.StatsAfterDelete` | src/pages/Dashboard.jsx:171-183 | a delete removes one order, its status from its count and its total from revenue |
| `Roster.RoleBadge` | src/pages/Staff.jsx:148-156 | the badge is grey exactly when the role is none of the three known roles |
| `Roster.KnownRolesHaveDistinctBadges` | src/pages/Staff.jsx:149-155 | the three known roles get three different badges |
| `Roster.PhoneCell` | src/pages/Admin.jsx:136 | the cell is never empty: it shows the phone when there is one, and "-" exactly when the phone is missing, empty or itself "-" |
| `DashboardPage.Submission` | src/pages/Dashboard.jsx:128-159 | the row sent on submit satisfies the pricing rule and carries the form's fields and status, whatever total the form displayed |
| `DashboardPage.QuantityField` | src/pages/Dashboard.jsx:92 | a stored quantity opens as an empty field exactly when it is missing or zero, and otherwise as itself |
| `DashboardPage.OrderFieldsComplete` | src/pages/Dashboard.jsx:124 | the order form needs name, email, service, pickup date, pickup time and a quantity; a passing form with a known service is priced at its rate, never at the empty-input 0 |
| `DashboardPage.UnchangedEditKeepsRow` | src/pages/Dashboard.jsx:86-169 | opening a priced row that has a status and a non-zero quantity, then submitting it untouched, writes back the same row |
| `DashboardPage.UnchangedEditNeedsQuantity` | src/pages/Dashboard.jsx:92-126 | a row with a missing or zero quantity opens with an empty quantity field and cannot be submitted untouched |
| `DashboardPage.CreateExample` | src/pages/Dashboard.jsx:148-159 | a new two-piece dry-cleaning order is stored Pending with total 300 |
| `DashboardPage.SubmissionsKeepTablePriced` | src/pages/Dashboard.jsx:128-183 | inserts, updates and deletes of priced rows keep every row of the orders table priced |
| `DashboardPage.Dashboard.constructor` | src/pages/Dashboard.jsx:22-46 | the initial screen state: zero statistics, an empty list, a closed modal, an empty form with status Pending |
| `DashboardPage.Dashboard.FetchDashboardData` | src/pages/Dashboard.jsx:49-79 | on a successful read the statistics are those of the current tables and the list is the orders table newest first; on failure both stay |
| `DashboardPage.Dashboard.OpenModal` | src/pages/Dashboard.jsx:86-109 | with a row, the form holds its id and fields, with "" for a missing or zero quantity, Pending for a missing status and 0 for a missing total; without one, every field is reset, status is Pending and no id is held; the modal is open |
| `DashboardPage.Dashboard.SetService` | src/pages/Dashboard.jsx:481-484 | choosing a service re-prices the displayed total |
| `DashboardPage.Dashboard.SetQuantity` | src/pages/Dashboard.jsx:504-507 | typing a quantity re-prices the displayed total |
| `DashboardPage.Dashboard.SetStatus` | src/pages/Dashboard.jsx:544-555 | the status can be changed only while an existing order is edited, so a new order's form always holds Pending |
| `DashboardPage.Dashboard.HandleSubmit` | src/pages/Dashboard.jsx:121-169 | an incomplete form changes nothing; otherwise the edited row is updated, or a new row is inserted with status Pending, always with the recomputed total; a successful write closes the modal and re-reads; a failed one leaves table and modal as they were |
| `DashboardPage.Dashboard.HandleDelete` | src/pages/Dashboard.jsx:171-183 | a dismissed confirmation or a failed delete changes nothing; a successful one removes exactly that id and re-reads |
| `AdminDashboardPage.TotalColumn` | src/pages/AdminDashboard.jsx:30-32 | the total column has one entry per order, each the order's total |
| `AdminDashboardPage.ColumnRevenue` | src/pages/AdminDashboard.jsx:33-37 | an empty total column gives revenue 0, and a column of non-negative totals never gives a negative revenue |
| `AdminDashboardPage.ColumnRevenueFrom` | src/pages/AdminDashboard.jsx:33-36 | the left fold over the column from a running sum returns that sum on an empty column and never drops below it when every entry is non-negative |
| `AdminDashboardPage.ColumnRevenueFromMatches` | src/pages/AdminDashboard.jsx:33-36 | folding the total column from any start value adds the same amounts as the dashboard's fold over whole rows |
| `AdminDashboardPage.RevenueAgrees` | src/pages/AdminDashboard.jsx:33-37 | the admin dashboard's revenue equals the dashboard's revenue for the same orders table |
| `AdminDashboardPage.NoOrdersNoRevenue` | src/pages/AdminDashboard.jsx:33-37 | an empty orders table has revenue 0 |
| `AdminDashboardPage.AdminDashboard.constructor` | src/pages/AdminDashboard.jsx:19-22 | all four figures start at 0 |
| `AdminDashboardPage.AdminDashboard.FetchStats` | src/pages/AdminDashboard.jsx:25-50 | each figure is its read's value, or 0 when that read yields nothing: order count, revenue with missing totals as 0, customer count and staff count; with both reads present, totalOrders = totalCustomers |
| `StaffPage.StaffFieldsComplete` | src/pages/Staff.jsx:61 | the staff form passes exactly when name, email, phone and role are all non-empty |
| `StaffPage.StaffScreen.constructor` | src/pages/Staff.jsx:10-21 | an empty list, a closed modal and an empty form |
| `StaffPage.StaffScreen.FetchStaff` | src/pages/Staff.jsx:23-34 | on success the list is the staff table newest first; on failure it stays |
| `StaffPage.StaffScreen.OpenModal` | src/pages/Staff.jsx:40-55 | with a row, its id, name, email, phone and role are copied into the form; without one, all four fields are cleared and no id is held; the modal is open |
| `StaffPage.StaffScreen.HandleSubmit` | src/pages/Staff.jsx:59-80 | a form missing name, email, role or phone changes nothing; otherwise exactly those four fields go to the edited row (others untouched) or to a new row, and the list is re-read and the modal closed even if the write failed |
| `StaffPage.StaffScreen.HandleDelete` | src/pages/Staff.jsx:82-90 | a dismissed confirmation or a failed delete changes nothing; a successful one removes exactly that id and re-reads |
| `AdminPage.AdminFieldsComplete` | src/pages/Admin.jsx:56 | the admin form passes exactly when name and email are non-empty; the phone takes no part |
| `AdminPage.AdminRow` | src/pages/Admin.jsx:58-68 | the admin payload carries exactly name, email and phone, with the phone always present |
| `AdminPage.UnchangedEditKeepsRow` | src/pages/Admin.jsx:38-62 | re-saving an opened row untouched writes the same row, except that a missing phone becomes ""; the phone cell shows the same text before and after |
| `AdminPage.AdminScreen.constructor` | src/pages/Admin.jsx:10-20 | an empty list, a closed modal and an empty form |
| `AdminPage.AdminScreen.FetchAdmins` | src/pages/Admin.jsx:22-31 | on success the list is the admin table newest first; on failure it stays |
| `AdminPage.AdminScreen.OpenModal` | src/pages/Admin.jsx:37-50 | with a row, the form gets its id, name and email, and its phone or "" when missing; without one, all fields are cleared and no id is held; the modal is open |
| `AdminPage.AdminScreen.HandleSubmit` | src/pages/Admin.jsx:54-75 | only an empty name or email rejects; otherwise exactly name, email and phone go to the edited row (others untouched) or to a new row, then the list is re-read and the modal closed even if the write failed |
| `AdminPage.AdminScreen.HandleDelete` | src/pages/Admin.jsx:77-85 | a dismissed confirmation or a failed delete changes nothing; a successful one removes exactly that id and re-reads |
| `CustomerPage.FormOf` | src/pages/Customer.jsx:77-81 | the edit form gets exactly the row's quantity, total and status |
| `CustomerPage.ApplyEdit` | src/pages/Customer.jsx:57-64 | a saved edit sets quantity, total and status from the form; name, email, service and pickup fields stay as they were |
| `CustomerPage.SaveEdit` | src/pages/Customer.jsx:57-64 | the orders table after a saved edit: the row under the id gets the form's quantity, total and status; every other row is unchanged; an id the table does not hold changes nothing; a well-formed table stays well-formed |
| `CustomerPage.SavingUntouchedFormKeepsRow` | src/pages/Customer.jsx:56-83 | saving the edit form as it was opened leaves the row unchanged |
| `CustomerPage.SavingIsIdempotent` | src/pages/Customer.jsx:57-64 | saving the same form twice is the same as saving it once |
| `CustomerPage.QuantityEditKeepsTotal` | src/pages/Customer.jsx:284-299 | changing only the quantity saves the old total: nothing re-prices the order on this screen |
| `CustomerPage.EditCanBreakPricing` | src/pages/Customer.jsx:57-64 | a priced order can be saved with a total that no longer matches its price |
| `CustomerPage.FormatPHDateTime` | src/pages/Customer.jsx:86-103 | a missing date or time gives the pair ("-", "-"); otherwise the result is the locale formatter's |
| `CustomerPage.CustomerScreen.constructor` | src/pages/Customer.jsx:10-23 | an empty list, nothing selected, a closed modal, an empty edit form |
| `CustomerPage.CustomerScreen.FetchCustomers` | src/pages/Customer.jsx:25-36 | on success the list is the orders table newest first; on failure it stays |
| `CustomerPage.CustomerScreen.OpenEditModal` | src/pages/Customer.jsx:75-83 | the row is selected, its quantity, total and status are copied into the form, and the modal is open |
| `CustomerPage.CustomerScreen.SetEditQuantity` | src/pages/Customer.jsx:284-287 | typing a quantity changes only the form's quantity; the total is not recomputed |
| `CustomerPage.CustomerScreen.SetEditTotal` | src/pages/Customer.jsx:296-299 | typing a total changes only the form's total |
| `CustomerPage.CustomerScreen.SetEditStatus` | src/pages/Customer.jsx:307-310 | choosing a status changes only the form's status |
| `CustomerPage.CustomerScreen.HandleSaveEdit` | src/pages/Customer.jsx:56-72 | on success the selected row gets the form's quantity, total and status and nothing else changes, then the modal closes and the list is re-read; on failure nothing changes |
| `CustomerPage.CustomerScreen.HandleDelete` | src/pages/Customer.jsx:43-53 | a dismissed confirmation or a failed delete changes nothing, including the list; a successful one removes exactly that id and re-reads |

Proof steps, which model nothing of their own and serve the members above:

- `RecordStore.IdsCons` serves `Contents`;
- `RecordStore.IdAt`, `RecordStore.NewestFirstOnlyAt`, `RecordStore.ValuesCut`
  and `RecordStore.ValuesExt` serve `ReplaceAt`, `RemoveAt` and the
  statistics-after-write lemmas;
- `RecordStore.ReplaceStep`, `RecordStore.UpdateTwice`,
  `RecordStore.UpdateCommutes`, `RecordStore.RemoveKept` and
  `RecordStore.RemoveCommutes` serve `ReplaceContents` and `RemoveContents`;
- `OrderStats.PositionOf` and `OrderStats.DropFirst` serve the permutation
  lemmas;
- `OrderStats.RevenueFromStep`, `AdminDashboardPage.ColumnRevenueFromStep` and
  `AdminDashboardPage.ColumnFoldMatches` serve
  `AdminDashboardPage.ColumnRevenueFromMatches`.

## Left out

- The database client and the network. Every read and write is a boolean outcome parameter. Store errors carry no detail, and a call that throws instead of returning an error is not modelled (it is what the admin dashboard's `catch` would handle, src/pages/AdminDashboard.jsx:46-49).
- Store ids are modelled as positive numbers the store hands out in creation order, starting at 1. So "order by created_at descending" is "largest id first". Real ids are opaque values that are never falsy.
- Toasts, `console.error`, navigation, the logout button and all markup and styling. A handler's toast is its returned `Outcome`. The confirmation dialog is the `confirmed` parameter.
- JavaScript number semantics: `parseFloat`, NaN from a non-numeric quantity, floating-point rounding, and string concatenation when a total arrives as text in src/pages/AdminDashboard.jsx:34. Quantities and totals are exact reals, and a non-empty quantity field is the number it parses to.
- The locale and time-zone part of `formatPHDateTime` (src/pages/Customer.jsx:88-101). It depends on the `Date` and `Intl` libraries and is the `render` parameter of `CustomerPage.FormatPHDateTime`.
- The inline status select of the customer list (src/pages/Customer.jsx:186-195). It calls `handleSaveEdit` with arguments the function ignores, so what it writes depends on whichever row and form were last opened. It is not a status setter.
- The view-details modal of the customer list (src/pages/Customer.jsx:202-203). Its button sets two state variables, `selectedCustomer` and `viewModalOpen`. `selectedCustomer` is what `handleSaveEdit` reads, but the edit button's `openEditModal` (src/pages/Customer.jsx:76) overwrites it before any save from the edit modal.
- Every modal's close and cancel buttons (the dashboard's, staff's and admin's `closeModal`, src/pages/Staff.jsx:199 and src/pages/Admin.jsx:174; the customer edit modal's Cancel, src/pages/Customer.jsx:320; the view modal's Close, src/pages/Customer.jsx:262) and the plain text-field setters (name, email, pickup date and time, phone, role). Each only assigns state variables, and the model's fields are assigned directly.
- Null versus empty text: both are `""`. This matters in one place. Re-saving an admin whose phone was null writes `""` rather than null (stated in `AdminPage.UnchangedEditKeepsRow`).
- `src/lib/supabase` (the client set-up) is not part of this model; `Backend.Store` stands for the database it connects to.
- The admin dashboard's profile role lookup, and the signup, login, landing and routing files. These are identity-provider and routing plumbing.
- Asynchronous interleaving, the `loading` flags, and races between sessions (last write wins). Each handler runs to completion before the next begins.

