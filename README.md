# School-uniform ordering: a Dafny model

An order for school uniform passes through three Streamlit pages that share one
`orders` table:

- the customer page (`usertest.py`): login, input, confirm, waiting for
  measurement, final confirmation, done;
- the staff page (`admin-1.py`): one measurement form per order, built from a
  declarative spec table;
- a minimal customer page (`user-1.py`): its view is derived from the remembered
  order id and the stored status.

This project models the logic under the widget calls:

- the price table and the order total;
- zip-code normalisation;
- the customer phase machine with its guard and each write it makes;
- the staff form's value domains, default selections and save patch;
- the minimal page's view selection;
- the table itself: a store whose `insert` assigns a fresh id and whose `update`
  merges a patch field by field.

Each page's write is a patch, and the lemmas relate those patches:

- what the staff form sees of a customer's order;
- what each write keeps;
- which write overwrites which;
- the row an order ends with after the whole flow.

Modules, one per file:

| file | module | role |
|---|---|---|
| `catalog.dfy` | `Catalog` | product keys, prices, total, the two quantity loops |
| `zip.dfy` | `ZipCode` | removal of `-` and spaces |
| `records.dfy` | `Records` | columns, stored values, Python `get`/`or`, field-wise merge |
| `store.dfy` | `Store` | the `orders` table as a class |
| `customer.dfy` | `Customer` | the customer session class and its patches |
| `staff.dfy` | `Staff` | spec table, `range`, domains, defaults, the save patch |
| `quick_order.dfy` | `QuickOrder` | the minimal customer session class |
| `workflow.dfy` | `Workflow` | properties that span the pages |

Columns are a datatype rather than strings. `Qty(k)`, `Waist(k)`, `Length(k)`,
`Memo(k)` and `Size(k)` stand for `"<key>"`, `"<key>_waist"`, `"<key>_length"`,
`"<key>_memo"` and `"<key>_size"`. `Records.ColumnName` gives the string each
one is stored under.

A page run that raises an exception (a `KeyError`, `.single()` on a missing row,
an index outside a selectbox's options) writes nothing and leaves the session as
it was. Session assignments made before the exception are kept. Widget values
are parameters of the methods, and each widget's domain is a precondition: 0..10
for a selectbox, 0..20 for a quantity number input, or the listed options.

In these places the code enforces less than such a workflow might be expected to, and the model
follows the code:

- A staff save sets status `measured` unconditionally, even on a completed
  order. Nothing locks a completed order, and no check rejects an incomplete
  measurement (`Workflow.StaffSaveReopensCompleted`).
- The "check latest state" button moves to final confirmation without the item
  copy. Only a waiting-page render without that button makes the copy
  (`Customer.CustomerSession.CheckLatest` and `AutoAdvance`).
- The staff form's quantity defaults read top-level quantity columns. The
  customer's insert does not write them; only the customer page's copy or a
  staff save does. A freshly registered order therefore shows 0 for every
  quantity (`Workflow.StaffSeesZeroBeforeCopy`). A staff save writes the
  quantities entered on the form. If the copy runs afterwards, it replaces them
  with the customer's stored items (`Workflow.CopyOverwritesStaffQuantities`).
- The necktie has a price but no entry in the spec table. The staff form never
  shows or writes any necktie column (`Staff.FormFields`,
  `Workflow.StaffSaveKeepsCustomerFields`).

## Model

| member | source | states |
|---|---|---|
| Catalog.ProductsDistinct | usertest.py:22-34 | every one of the eleven product keys occurs exactly once in the price table |
| Catalog.SubtotalPermutation | usertest.py:131 | summing quantity × price over two orderings of the same keys gives the same sum |
| Catalog.TotalAnyOrder | usertest.py:131 | `Total`, the sum of quantity × `Price` over the table, over all eleven products is independent of the order the keys are summed in |
| Catalog.TotalZeroIff | usertest.py:131-136 | with no negative quantity the total is non-negative, and it is 0 exactly when every quantity is 0 (so the input guard `total_price == 0` means "nothing chosen") |
| Catalog.TotalIncrement | usertest.py:22-34 | choosing one more of any product raises `Total` by exactly that product's `Price` from the table |
| Catalog.TwoShirtsTotal | usertest.py:131 | two shirts and nothing else cost 4000 yen |
| Catalog.CollectQuantities | usertest.py:126-128 | the input loop builds an `items` map with one entry per product, equal to that product's widget value, each in 0..10 |
| Catalog.RecomputeTotal | usertest.py:211-223 | the waiting-page loop yields the same `items` map, and its running total equals the total of those quantities, the same value the input page computes |
| ZipCode.Without | usertest.py:107 | `s.replace(c, "")` contains no `c` and is no longer than `s` |
| ZipCode.CleanZipContents | usertest.py:107 | the zip code normalised by `CleanZip` contains no `-` and no space, and every other character occurs as often as in the input |
| ZipCode.CleanZipAppend | usertest.py:107 | normalising a concatenation is concatenating the normalised parts, so kept characters stay in their original order |
| ZipCode.CleanZipSingle | usertest.py:107 | a single character is dropped exactly when it is `-` or a space |
| ZipCode.CleanZipKeepsClean | usertest.py:107 | a zip code with no `-` or space is returned unchanged |
| ZipCode.CleanZipIdempotent | usertest.py:107 | normalising twice is normalising once |
| Records.ColumnNameRoundTrip | admin-1.py:75-122 | `FieldOfColumn` reads every field back from its column name `ColumnName(f)`, such as `"<key>_waist"` |
| Records.ColumnNameInjective | admin-1.py:75-122 | distinct fields are stored under distinct column names, so the field datatype stands for the column strings |
| Records.Merge | usertest.py:228-231 | an update keeps every column, takes the patch's value for each patched column, and removes nothing |
| Records.MergeIdempotent | usertest.py:270 | writing the same patch twice leaves the row as writing it once |
| Store.OrderStore.Insert | usertest.py:193-195 | an insert stores the record under a fresh id, which it returns; ids rise by one |
| Store.OrderStore.Update | usertest.py:228-231 | `update(patch).eq("id", id)` merges the patch into that row only; a missing id changes nothing |
| Store.OrderStore.Fetch | usertest.py:204 | the select by id yields the row exactly when it exists |
| Store.OrderStore.IdsBelow | admin-1.py:62 | the stored ids below a bound, strictly ascending, each present exactly when stored |
| Store.OrderStore.ListIds | admin-1.py:62 | the staff listing holds every stored id once, in ascending order |
| Customer.Draft | usertest.py:139-147 | the session draft holds the entered fields, one quantity per product, and a non-zero total equal to the computed total |
| Customer.InsertRecord | usertest.py:183-192 | the inserted record has exactly the draft's customer fields, `items` and `total_price` copied, phone and email read with `get`, and status `waiting` |
| Customer.InsertedDraft | usertest.py:183-192 | for a well-formed draft the inserted record is the draft with status `waiting` added |
| Customer.QuantityPatch | usertest.py:228-231 | the quantity update writes `items` and `total_price` and nothing else |
| Customer.CopyPatch | usertest.py:252-253 | the copy writes every product key of the price table, each as `items.get(k, 0)` (`StoredQuantity`), and nothing else |
| Customer.CustomerSession.constructor | usertest.py:58-65 | a new session is logged out, on the login phase, with an empty draft and no order id |
| Customer.CustomerSession.SignIn | usertest.py:74-79 | a correct login moves from login to input; a wrong one changes nothing |
| Customer.CustomerSession.SignOut | usertest.py:283-285 | logout from input or done (usertest.py:97-99 and 283-285) clears the whole session back to its initial state |
| Customer.CustomerSession.SubmitInput | usertest.py:135-149 | input moves to confirm exactly when name and address are non-empty and some quantity is positive; the draft then holds the entered values and quantities; otherwise phase and draft stay as they were |
| Customer.CustomerSession.Back | usertest.py:178-180 | "edit" returns from confirm to input and keeps the draft |
| Customer.CustomerSession.Register | usertest.py:182-197 | "measure" inserts the draft with status `waiting` under a fresh id, remembers that id and moves to complete |
| Customer.CustomerSession.CurrentRow | usertest.py:204 | the session's stored row, present exactly when an id is remembered and stored |
| Customer.CustomerSession.UpdateQuantities | usertest.py:210-233 | on the waiting page, the update merges new 0..10 quantities and their total into the order's row and changes nothing else, neither the session nor any other row |
| Customer.CustomerSession.CheckLatest | usertest.py:236-242 | the button moves to final confirmation exactly when the stored status is `measured`, and writes nothing |
| Customer.CustomerSession.AutoAdvance | usertest.py:247-257 | when the stored status is `measured` the phase becomes final confirmation and the copy patch of the stored items is merged into the row; otherwise nothing changes |
| Customer.CustomerSession.ConfirmOrder | usertest.py:263-272 | final confirmation merges status `completed` into the row and moves to done |
| Staff.RangeBounds | admin-1.py:89 | a positive-step `range`, modelled by `Range`, lies in `[start, stop)` and is empty exactly when `start >= stop` |
| Staff.RangeIncreasing | admin-1.py:89 | a positive-step `range` is strictly increasing |
| Staff.RangeAt | admin-1.py:89 | element `i` of a positive-step `range` is `start + i * step` |
| Staff.RangeLength | admin-1.py:89 | a positive-step `range` stops only when the next step would reach `stop` |
| Staff.SpecRank | admin-1.py:43-54 | the ten keys `SpecOf` gives a spec, in table order; the necktie has none |
| Staff.WaistDomain | admin-1.py:89 | `WaistOptions`, the pants waist options of `range(61, 111, 3)` (admin-1.py:46) are 17 values `61 + 3i`, strictly increasing, all below 111, first 61, last 109 |
| Staff.SizeDomains | admin-1.py:113-118 | in `SizeChoices`, the sandal sizes from `{"range": (22, 31, 1)}` are 22..30; every list spec gives S, M, L, XL as listed |
| Staff.IndexOf | admin-1.py:94 | `list.index` gives the first position holding the value |
| Staff.SelectedIndex | admin-1.py:94 | the selectbox index is the value's position when it is an option, else 0 |
| Staff.QtyDefault | admin-1.py:75 | the quantity input defaults to the stored top-level quantity column, or 0 when absent |
| Staff.WaistDefault | admin-1.py:90-94 | the waist default is an option: the stored waist when it is set and an option, else the first option |
| Staff.LengthDefault | admin-1.py:99 | the length default is the stored length when truthy, else the placeholder `"72"` |
| Staff.MemoDefault | admin-1.py:104 | the memo default (also admin-1.py:127) is the stored memo when truthy, else `""` |
| Staff.SizeDefault | admin-1.py:122 | the size default is a choice: the stored size when it is one, else the first choice |
| Staff.FormFields | admin-1.py:74-131 | the form fields are exactly quantity and memo of every non-necktie product, waist and length of the two pants kinds, and size of the eight sized kinds |
| Staff.SpecFields | admin-1.py:85-131 | one spec writes exactly its own form fields with the submitted values |
| Staff.StaffPatch | admin-1.py:134-136 | the save patch has exactly the form fields and `status`, holds the submitted values and sets status `measured` |
| Staff.BuildPatch | admin-1.py:72-131 | the loop over the spec table collects exactly the form fields with their submitted values |
| Staff.SaveMeasurements | admin-1.py:134-136 | a logged-in save merges the save patch into that order's row whatever its status, and changes nothing else |
| QuickOrder.QuickSession.constructor | user-1.py:10-11 | a new session remembers no order id and has no final-done flag |
| QuickOrder.QuickSession.Render | user-1.py:16-66 | the input form shows exactly when no id is remembered; otherwise the stored status chooses the waiting notice (`waiting`) or the final review (`measured`); a missing row fails the run; the thank-you part shows when the final-done flag is set, unless the run failed or ended with the waiting notice's re-poll (user-1.py:42-43) |
| QuickOrder.QuickSession.Submit | user-1.py:21-27 | submitting inserts a row with only the name and status `waiting`, and remembers its id |
| QuickOrder.QuickSession.Poll | user-1.py:37-43 | a poll writes nothing and renders the current view |
| QuickOrder.QuickSession.Confirm | user-1.py:58-62 | from the final review, confirming merges status `completed`, sets the final-done flag and leaves only the thank-you part on screen |
| QuickOrder.QuickSession.BackToTop | user-1.py:65-70 | "back to top" after final confirmation clears the session |
| QuickOrder.BackToTopShowsInput | user-1.py:10-16 | a cleared session shows the input form and no thank-you part |
| Workflow.StaffSeesZeroBeforeCopy | admin-1.py:75 | on a freshly registered order the staff form's quantity default is 0 for every product |
| Workflow.StaffSeesCopiedQuantities | usertest.py:252-255 | after the copy the staff form's quantity default is the customer's stored quantity (`StoredQuantity`) |
| Workflow.StaffSaveReopensCompleted | admin-1.py:135 | a staff save turns a completed order back to `measured` |
| Workflow.StaffSaveKeepsCustomerFields | admin-1.py:72-136 | a staff save changes only the status and form fields; customer fields and all necktie columns stay as they were |
| Workflow.StaffSaveKeepsWaitingPage | admin-1.py:134-136 | after a staff save the customer's waiting page still renders and sees status `measured` |
| Workflow.StaffSaveCommutesWithQuantityUpdate | admin-1.py:136 | a staff save and a customer quantity update give the same row in either order |
| Workflow.QuantityUpdateKeepsStatus | usertest.py:228-231 | a quantity update keeps the status and every column other than `items` and `total_price` |
| Workflow.RegisteredRowRenders | usertest.py:214-221 | a freshly registered order satisfies `WaitFormRenders`: every stored quantity is a valid index of the waiting page's 0..10 selectboxes |
| Workflow.QuantityUpdateRenders | usertest.py:215-221 | after a quantity update the waiting page still satisfies `WaitFormRenders` |
| Workflow.CopyOverwritesStaffQuantities | usertest.py:252-255 | after a staff save, the copy replaces the saved quantities with the stored items and changes no other column |
| Workflow.ConfirmTwice | usertest.py:270 | confirming twice leaves the row as confirming once, with status `completed` |
| Workflow.InsertedTotalConsistent | usertest.py:183-192 | a registered well-formed draft stores a total equal to the total of its items |
| Workflow.WritesKeepTotalConsistent | usertest.py:228-231 | the quantity update, the staff save, the copy and the confirmation each keep the stored total equal to the total of the stored items |
| Workflow.UpdateKeepsTotalsConsistent | usertest.py:228-231 | merging any of those patches into one row keeps every row's total consistent |
| Workflow.FinishKeepsCustomerFields | usertest.py:270-271 | on the automatic-advance path `Finish` models (staff save, the waiting-page render that copies the items, confirmation), the row ends completed and keeps the registered customer fields, items and total |
| Workflow.FinishQuantities | usertest.py:252-255 | at the end of the automatic-advance path the quantity columns are the registered items, not the staff's quantities (the "check latest state" path skips the copy, and this lemma does not cover it) |
| Workflow.FinishMeasurements | admin-1.py:107-131 | at the end of the automatic-advance path the row holds the staff's waists, lengths, sizes and memos |
| Workflow.FinishedOrder | usertest.py:183-192 | an order registered from a draft ends the automatic-advance path with the draft's fields and the draft's quantities |
| Workflow.FinishedRowConsistent | usertest.py:146 | an order registered from a well-formed draft ends the automatic-advance path with its total still equal to the total of its items |

## Left out

- Rendering: widgets, CSS, page configuration, captions, toasts, `st.rerun` and
  `st.stop` are not modelled. Display-only reads such as `pants_waist` on the
  final page and the `socks` column of the minimal page are also not modelled.
- The Supabase client is replaced by `Store.OrderStore`. The network, the JSON
  wire format, concurrency between page instances and response errors are not
  modelled.
- `Customer.CustomerSession.Register`: the insert always returns its row, so the
  "no data returned" branch (usertest.py:194) is not modelled.
- The address lookup (usertest.py:108-116) is not modelled: it is a network
  request and its error handling. Only the zip normalisation at line 107 is.
- The five-second sleep before the minimal page's re-poll is timing. A poll is a
  step that writes nothing.
- Secrets and credential comparison are not modelled. A login is a boolean input
  saying whether both entered credentials match. The staff login and logout
  (admin-1.py:20-38) are only the `loggedIn` parameter of
  `Staff.SaveMeasurements`.
- Rules the code does not implement are not modelled: locking a completed order,
  refusing an incomplete measurement, rejecting out-of-domain values, and
  fractional steps.
- `Staff.SaveMeasurements`: a stored waist that `int(...)` cannot convert
  (admin-1.py:90) raises. The model requires a stored waist to be absent, falsy or
  an integer.
- SQL NULL columns are treated as absent. `row.get(k, 0)` on a column that exists
  but holds NULL would yield None, not 0.
- `Staff.LengthDefault`: the `""` fallback for a pants spec without a
  `length_placeholder` is not modelled, because both pants specs have one.
- `Staff.SizeChoices`: the `["S","M","L","XL"]` fallback for a spec without
  `size_options` is modelled, but no spec in the table uses it.
- The single sidebar menu entry (admin-1.py:35) is not modelled; the order list
  is the only mode.
- The input page keeps its own field values between reruns, including the looked
  up address (usertest.py:103-120). This is widget state and is not modelled.
