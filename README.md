# Salon management kit: stock ledger, catalogue and point of sale

A Dafny model of the browser-side salon management application. Its records
live in IndexedDB object stores, and React screens drive them. The model
covers:

- **The record stores** (`Store.Db`): products, inventory records (keyed by
  product id through the unique `product_id` index), inventory log entries,
  receipts, receipt items, appointments and appointment–service links. Each
  store has an auto-increment key generator starting at 1. Every service call
  is one method, applied as one atomic step.
- **The inventory ledger** (`Ledger`): `adjustInventory` either writes
  nothing (no record, or the quantity would go negative) or writes both
  the new quantity and exactly one log entry. Under any sequence of creation
  seeds and adjustments, every stock level is non-negative and equals the
  sum of its product's logged changes.
- **The catalogue naming rule** (`Catalog`): product names are unique after
  trimming and lower-casing. A product may keep its own name on update.
- **The cart and checkout** (`Cart`, `Checkout`):
  - add-or-increment, set-quantity-or-remove, remove, subtotal and total;
  - `handleCheckout`: guards, a pre-flight stock check, the receipt, and the
    commit loop of receipt items and sale adjustments.
  - With one line per `(type, id)` and a passing pre-flight check, every sale
    adjustment succeeds.
- **The screens' rules:**
  - the stock-status classification and reason labels (`Stock`);
  - the inventory adjustment form and newest-first history (`InventoryView`);
  - the product form's edit/submit/cancel cycle (`ProductView`);
  - the appointment form's service toggle, default end time, and
    link-replacing save and delete (`Appointments`);
  - the customer search (`Customers`);
  - the receipt history's ordering and search filter (`History`).

Money is an integer number of minor units. Timestamps are integers: the
millisecond value of the stored ISO date. The clock is a `now` parameter.
Text helpers (`Text`) model `toLowerCase`, `trim`, `includes`,
`toString`, `padStart` and the `parseInt` of an hour.

## Model

| member | source | states |
|---|---|---|
| Ledger.LogsFor | src/db/service.ts:354-365 | `InventoryLogService.getByProductId` returns exactly the product's entries, in store order (a subsequence of the log store) |
| Ledger.LogsForCount | src/db/service.ts:354-365 | the index lookup keeps every copy of each of the product's entries and no entry of another product |
| Ledger.Create | src/db/service.ts:264-268 | `InventoryService.create`: a second record for a product is refused (unique `product_id` index, schema.ts:73) with nothing written; otherwise the record is added under the next key and the logs are untouched |
| Ledger.Adjust | src/db/service.ts:289-344 | missing record → NotFound, nothing written; `quantity + change < 0` → InsufficientStock, nothing written; succeeds exactly otherwise (a zero change or a negative restock included), with the quantity moved by exactly `change`, the record's id and product kept, other products untouched, and exactly one entry with the same product, change, reason, receipt and notes appended |
| Ledger.AdjustDone | src/db/service.ts:323-340 | the state a successful adjustment leaves, field by field |
| Ledger.LogsForAppend | src/db/service.ts:332-340 | an appended entry joins its own product's history only |
| Ledger.AdjustKeepsBalance | src/db/service.ts:316-340 | an adjustment, successful or not, keeps every quantity equal to the sum of its product's logged changes |
| Ledger.CreateZeroKeepsValid | src/db/service.ts:223-227 | seeding a product at quantity 0 with no logs keeps the ledger valid |
| Ledger.AdjustKeepsShape | src/db/service.ts:316-335 | an adjustment keeps each record under its product id, every quantity non-negative and every log entry naming a product with a record |
| Ledger.AdjustKeepsValid | src/db/service.ts:316-340 | an adjustment keeps the ledger valid (keyed, non-negative, logs of known products, balanced) |
| Ledger.RunKeepsValid | src/db/service.ts:289-344 | under any sequence of creation seeds and adjustments, every quantity is non-negative and equals its log sum |
| Ledger.Run | src/db/service.ts:289-344 | a run of seeds and adjustments only appends log entries and never drops an inventory record |
| Ledger.EmptyIsValid | src/db/service.ts:263-268 | the empty stores are valid |
| Catalog.Normalize | src/db/service.ts:215 | the normal form is no longer than the name, has no white space at either end and no capital letter |
| Catalog.NameTaken | src/db/service.ts:213-221 | a clash is another stored product (the edited one excepted) with the same normal form |
| Catalog.AddKeepsUnique | src/db/service.ts:213-221 | adding a product keeps names unique exactly when its trimmed, lower-cased name is not taken |
| Catalog.PutKeepsUnique | src/db/service.ts:232-242 | the update guard (no other id uses the normalized name) keeps names unique |
| Catalog.OwnNameNotTaken | src/db/service.ts:236-238 | a product may keep its own name (or a case/space variant of it) on update |
| Catalog.CaseAndSpaceClash | src/db/service.ts:215-216 | names differing only in case or leading space clash |
| Catalog.TrimIgnoresLeadingSpace | src/db/service.ts:215 | `trim` drops a leading space |
| Catalog.LowerIdempotentUnderTrim | src/db/service.ts:215 | normalizing a lower-cased name gives the same normal form |
| Catalog.LowerTwice | src/db/service.ts:215 | `toLowerCase` is idempotent |
| Catalog.TrimStartLower | src/db/service.ts:215 | lower-casing commutes with stripping leading white space |
| Catalog.TrimEndLower | src/db/service.ts:215 | lower-casing commutes with stripping trailing white space |
| Store.LinksOf | src/db/service.ts:149-160 | `getByAppointmentId` returns exactly the appointment's links, each as often as stored, in store order |
| Store.ItemsOf | src/db/service.ts:414-425 | `getByReceiptId` returns exactly the receipt's items, each as often as stored, in store order |
| Store.DeleteEach | src/db/service.ts:162-176 | the delete loop leaves exactly the links not listed (links without an id are skipped) |
| Store.DeletedAreThoseOf | src/db/service.ts:162-176 | deleting the listed links of an appointment leaves exactly the other appointments' links, in order |
| Store.FilterKeepsValid | src/db/service.ts:162-176 | deleting links keeps the remaining ids increasing and below the key generator |
| Store.Db.constructor | src/db/schema.ts:16-103 | the opened database is empty and valid, every key generator at 1 |
| Store.Db.GetInventory | src/db/service.ts:276-287 | `getByProductId` finds the record exactly when one exists for the product |
| Store.Db.CreateInventory | src/db/service.ts:264-268 | one write that is `Ledger.Create` on the ledger stores, nothing else changed |
| Store.Db.CreateProduct | src/db/service.ts:212-230 | a taken normalized name → DuplicateName with nothing written; otherwise the product under the next key, then a separate seed of its inventory record at quantity 0; logs untouched |
| Store.Db.UpdateProduct | src/db/service.ts:232-242 | a name another product uses → DuplicateName with nothing written; otherwise a `put` under the product's id; the ledger is untouched |
| Store.Db.DeleteProduct | src/db/service.ts:244-248 | removes only the product record: its inventory record and logs stay |
| Store.Db.AdjustInventory | src/db/service.ts:289-344 | the imperative read-check-put-log transaction is exactly `Ledger.Adjust` on the ledger stores, and keeps the database valid |
| Store.Db.CreateReceipt | src/db/service.ts:375-379 | appends the receipt under the next key |
| Store.Db.CreateReceiptItem | src/db/service.ts:408-412 | appends the item under the next key |
| Store.Db.CreateAppointment | src/db/service.ts:85-89 | adds the appointment under the next key |
| Store.Db.PutAppointment | src/db/service.ts:91-95 | replaces the appointment under its id, moving the key generator past an explicit key |
| Store.Db.DeleteAppointment | src/db/service.ts:97-101 | removes the appointment only; its links are not touched |
| Store.Db.CreateLink | src/db/service.ts:143-147 | appends the link under the next key |
| Store.Db.DeleteLinksOf | src/db/service.ts:162-176 | leaves exactly the other appointments' links, in order |
| Cart.Find | src/components/POSSystem.tsx:31 | `cart.find`: no index when no line matches `(type, id)`; otherwise the first matching line |
| Cart.RemoveFromCart | src/components/POSSystem.tsx:57-59 | keeps exactly the lines not matching `(type, id)`, in order |
| Cart.SetQuantity | src/components/POSSystem.tsx:49-53 | the `map` keeps the length and every key; matching lines get the new quantity with everything else kept, other lines are unchanged |
| Cart.UpdateQuantity | src/components/POSSystem.tsx:45-55 | a quantity ≤ 0 leaves exactly the lines not matching `(type, id)`; a positive one keeps the length and sets the quantity of exactly the matching lines |
| Cart.AddToCart | src/components/POSSystem.tsx:30-43 | a new item is appended as a line with quantity 1 and the given name and price; for an item already in the cart the length is kept and every line keeps its stored name and price |
| Cart.Subtotal | src/components/POSSystem.tsx:61-63 | a cart whose line totals are all non-negative has a non-negative subtotal |
| Cart.TipAmount | src/components/POSSystem.tsx:67 | no tip → 0; a tip → exactly the amount entered in the tip field |
| Cart.Total | src/components/POSSystem.tsx:65-69 | no tip → total = subtotal; a tip → subtotal + tip exactly; a negative tip is accepted and brings the total below the subtotal |
| Cart.UpdateQuantityAt | src/components/POSSystem.tsx:45-55 | with unique keys, a positive quantity changes only the matching line's quantity, leaving the others in place |
| Cart.UpdateQuantityRemoves | src/components/POSSystem.tsx:45-47 | a quantity ≤ 0 removes the line |
| Cart.RemoveAt | src/components/POSSystem.tsx:57-59 | with unique keys, removal cuts out exactly the one line |
| Cart.OthersKept | src/components/POSSystem.tsx:57-59 | with unique keys, no other line matches a line's key |
| Cart.SameKeySameLine | src/components/POSSystem.tsx:30-34 | with unique keys, a key names one line |
| Cart.AddExisting | src/components/POSSystem.tsx:30-34 | adding an item already in the cart raises its line's quantity by 1, nothing else |
| Cart.AddNew | src/components/POSSystem.tsx:35-42 | adding a new item appends one line with the item's name and price and quantity 1 |
| Cart.AddKeepsWellFormed | src/components/POSSystem.tsx:30-43 | adding keeps one line per `(type, id)` and every quantity ≥ 1 |
| Cart.RemoveKeepsWellFormed | src/components/POSSystem.tsx:57-59 | removing keeps the cart invariant |
| Cart.UpdateKeepsWellFormed | src/components/POSSystem.tsx:45-55 | updating keeps the cart invariant |
| Cart.SubtotalAppend | src/components/POSSystem.tsx:61-63 | the subtotal of a concatenation is the sum of the subtotals |
| Cart.SubtotalSingle | src/components/POSSystem.tsx:61-63 | a one-line cart's subtotal is price × quantity |
| Cart.SubtotalUpdateAt | src/components/POSSystem.tsx:61-63 | changing one line's quantity moves the subtotal by price × the difference |
| Cart.AddRaisesSubtotal | src/components/POSSystem.tsx:30-43 | adding an item raises the subtotal by one unit price (the line's price when the item is already there) |
| Cart.AddExistingSubtotal | src/components/POSSystem.tsx:30-34 | incrementing an existing line raises the subtotal by its price |
| Cart.RemoveLowersSubtotal | src/components/POSSystem.tsx:57-63 | removing a line lowers the subtotal by its line total |
| Checkout.Short | src/components/POSSystem.tsx:90-97 | a service line is never short |
| Checkout.FirstShort | src/components/POSSystem.tsx:90-97 | the pre-flight finds a short line exactly when some product line has no record or too little stock, and names one such line |
| Checkout.ItemsForAt | src/components/POSSystem.tsx:108-116 | item `i` records cart line `i`, with `unit_price` = price and `line_total` = price × quantity |
| Checkout.SellLine | src/components/POSSystem.tsx:118-125 | a service line sells nothing and touches no stock; a failed sale leaves the ledger unchanged |
| Checkout.SellLineKeepsValid | src/components/POSSystem.tsx:118-125 | one line's sale keeps the ledger valid, whether or not it goes through |
| Checkout.SellLineDone | src/components/POSSystem.tsx:118-125 | a line's sale that goes through lowers only its own product's stock by its quantity and logs one `sale` entry with the receipt id (none for a service line) |
| Checkout.SellLineCovered | src/components/POSSystem.tsx:118-125 | selling a covered line succeeds and leaves other products' lines covered |
| Checkout.TailUnique | src/components/POSSystem.tsx:108 | the rest of a cart with unique keys has unique keys, none equal to the first line's |
| Checkout.Commit | src/components/POSSystem.tsx:108-127 | every step of the loop writes one receipt item, so a non-empty cart writes at least one item and at most one per line; an empty cart writes nothing |
| Checkout.CommitUnfold | src/components/POSSystem.tsx:108-127 | one step of the commit loop: a failed sale stops it, a successful one continues with the rest |
| Checkout.CommitKeepsValid | src/components/POSSystem.tsx:108-127 | however far the commit loop gets, the ledger stays valid |
| Checkout.CommitSucceeds | src/components/POSSystem.tsx:108-127 | with unique keys and a passing pre-flight, every sale succeeds; one item per line in cart order; each product's stock drops by exactly the units sold; one sale entry per product line |
| Checkout.CommitCoveredDone | src/components/POSSystem.tsx:108-127 | a covered cart with unique keys commits with no failed sale |
| Checkout.CommitItems | src/components/POSSystem.tsx:108-116 | a successful commit appends exactly the items for the cart |
| Checkout.CommitStock | src/components/POSSystem.tsx:118-125 | a successful commit lowers each product's stock by the units sold |
| Checkout.CommitLogs | src/components/POSSystem.tsx:118-125 | a successful commit appends exactly the sale entries of the product lines |
| Checkout.SubtotalIsItemTotals | src/components/POSSystem.tsx:61-63 | the receipt's subtotal equals the sum of its items' line totals |
| Checkout.PointOfSale.constructor | src/components/POSSystem.tsx:10-15 | the screen starts with no customer, an empty cart and no tip |
| Checkout.PointOfSale.AddToCart | src/components/POSSystem.tsx:30-43 | the cart becomes `Cart.AddToCart` of the old cart and keeps its invariant; the receipt dialog and the last receipt number are untouched |
| Checkout.PointOfSale.UpdateQuantity | src/components/POSSystem.tsx:45-55 | the cart becomes `Cart.UpdateQuantity` of the old cart and keeps its invariant; the receipt dialog and the last receipt number are untouched |
| Checkout.PointOfSale.RemoveFromCart | src/components/POSSystem.tsx:57-59 | the cart becomes `Cart.RemoveFromCart` of the old cart and keeps its invariant; the receipt dialog and the last receipt number are untouched |
| Checkout.PointOfSale.HandleCheckout | src/components/POSSystem.tsx:71-140 | no customer (id 0) or an empty cart → nothing written; a short product line → nothing written; otherwise one receipt (no appointment) with subtotal, tip and total, then the commit loop; on success the cart, tip and customer are reset and the receipt is shown; a failed sale leaves the receipt and earlier writes and keeps the screen state; the receipt key generator moves past the new receipt, and the product, appointment and link key generators are unchanged |
| Checkout.PointOfSale.Preflight | src/components/POSSystem.tsx:90-97 | the pre-flight loop returns exactly `FirstShort` |
| Checkout.PointOfSale.CommitLines | src/components/POSSystem.tsx:108-127 | the commit loop's writes are exactly `Commit` on the ledger and item stores; the receipts, products, appointments and links, and their key generators, are unchanged |
| Stock.StockStatus | src/components/InventoryManager.tsx:66-74 | no record ⇔ unknown with quantity 0; quantity 0 ⇔ out (any threshold); nonzero ≤ threshold ⇔ low; nonzero > threshold ⇔ good; otherwise the quantity shown is the record's |
| Stock.StockStatusOnLedger | src/components/InventoryManager.tsx:71-73 | over a valid ledger, low ⇔ 0 < quantity ≤ threshold, and quantities shown are never negative |
| Stock.StockStatusMonotone | src/components/ProductManager.tsx:92-100 | raising the threshold never turns low into good |
| Stock.ReasonLabel | src/components/InventoryManager.tsx:80-89 | an unknown reason is shown unchanged; a known one is replaced by a label other than its stored text |
| Stock.ReasonLabelInjective | src/components/InventoryManager.tsx:80-89 | distinct known reasons get distinct labels |
| Stock.EveryReasonLabelled | src/components/InventoryManager.tsx:80-89 | every stored reason (sale, restock, adjustment) gets one of its three labels |
| InventoryView.HistoryOf | src/components/InventoryManager.tsx:34-39 | the history holds the product's entries each as often as logged, newest `created_at` first |
| InventoryView.HistoryOfContents | src/components/InventoryManager.tsx:34-39 | an entry is in the history exactly when it is logged for the product |
| InventoryView.HistoryAfterLog | src/components/InventoryManager.tsx:34-39 | a new entry is added to its own product's history only |
| InventoryView.AdjustFromScreen | src/components/InventoryManager.tsx:41-64 | a successful adjustment from the form moves stock by exactly the amount and adds exactly one entry, with the chosen reason and no receipt, to the history |
| InventoryView.InventoryManager.constructor | src/components/InventoryManager.tsx:6-17 | the screen starts with fresh snapshots, no selection, empty fields and the restock reason |
| InventoryView.InventoryManager.GetStockStatus | src/components/InventoryManager.tsx:66-74 | over the inventory snapshot, against the product's own threshold: no record ⇔ unknown; quantity 0 ⇔ out; nonzero ≤ threshold ⇔ low; nonzero > threshold ⇔ good; the quantity shown is the record's (0 without one) |
| InventoryView.InventoryManager.LoadData | src/components/InventoryManager.tsx:25-32 | the snapshots become the stores' current contents |
| InventoryView.InventoryManager.LoadLogs | src/components/InventoryManager.tsx:34-39 | the history becomes the product's entries, newest first |
| InventoryView.InventoryManager.SelectProduct | src/components/InventoryManager.tsx:19-23 | selecting a product with an id loads its history |
| InventoryView.InventoryManager.HandleAdjust | src/components/InventoryManager.tsx:41-64 | no selected product → nothing happens; otherwise exactly `Ledger.Adjust` with the parsed amount, the chosen reason (never sale), no receipt, notes only when non-empty; on success the form is cleared and snapshots and history reloaded; on failure the screen is unchanged; receipts, receipt items, appointments and links are never touched |
| ProductView.Edited | src/components/ProductManager.tsx:54-60 | the written-back product keeps its id, sku and creation time, with the form's name, price and threshold |
| ProductView.ProductManager.constructor | src/components/ProductManager.tsx:6-17 | the form starts reset (adding, empty name and price, threshold 5) |
| ProductView.ProductManager.GetStockStatus | src/components/ProductManager.tsx:92-100 | over the inventory snapshot, against the given threshold: no record ⇔ unknown; quantity 0 ⇔ out; nonzero ≤ threshold ⇔ low; nonzero > threshold ⇔ good; the quantity shown is the record's (0 without one) |
| ProductView.ProductManager.HandleEdit | src/components/ProductManager.tsx:28-34 | loads the product's name, price and threshold and enters editing mode |
| ProductView.ProductManager.HandleCancel | src/components/ProductManager.tsx:84-90 | resets the form with no write |
| ProductView.ProductManager.HandleSubmit | src/components/ProductManager.tsx:48-82 | editing → `update` of the edited product with its id kept; otherwise `create` without a sku; it succeeds exactly when the name is free; success resets the form and reloads; a refused name writes nothing and keeps the form; receipts, receipt items, appointments and links are never touched |
| ProductView.ProductManager.HandleDelete | src/components/ProductManager.tsx:36-46 | once confirmed, removes the product record only and reloads; receipts, receipt items, appointments and links are unchanged |
| ProductView.ProductManager.LoadData | src/components/ProductManager.tsx:19-26 | the snapshots become the stores' current contents |
| Appointments.Toggle | src/components/AppointmentForm.tsx:61-67 | toggling makes the service selected exactly when it was not, and changes no other service's membership; selecting appends at the end, deselecting keeps the others in their order |
| Appointments.ToggleTwice | src/components/AppointmentForm.tsx:61-67 | toggling an unselected service twice restores the list exactly |
| Appointments.FilterDistinct | src/components/AppointmentForm.tsx:64 | filtering a list without duplicates leaves none |
| Appointments.ToggleKeepsDistinct | src/components/AppointmentForm.tsx:61-67 | toggling never lists a service twice |
| Appointments.BeforeColonOf | src/components/AppointmentForm.tsx:42 | `split(':')[0]` of `d:rest` is `d` |
| Appointments.LeadingDigitsAll | src/components/AppointmentForm.tsx:42 | `parseInt` reads a whole digit string |
| Appointments.PadStart2Value | src/components/AppointmentForm.tsx:43 | zero-padding keeps a number's value |
| Appointments.PaddedHour | src/components/AppointmentForm.tsx:43 | an hour below 24 padded to two digits and followed by `:00` is five characters, two digits then `:00`, and reads back as that hour |
| Appointments.SlotText | src/components/AppointmentForm.tsx:43 | two digits followed by `:00` read back as the value of those digits |
| Appointments.EndTimeDefault | src/components/AppointmentForm.tsx:42-43 | no hour → `NaN:00`; start hour ≥ 23 → `23:59`; otherwise a five-character `HH:00` (two digits, then `:00`) whose hour reads back as start hour + 1 |
| Appointments.NewLinks | src/components/AppointmentForm.tsx:96-101 | one link per selected service; link `i` is service `i` with quantity 1 under key first + i |
| Appointments.ServiceIds | src/components/AppointmentForm.tsx:57 | `map(as => as.service_id)` keeps order and length |
| Appointments.NewLinksServices | src/components/AppointmentForm.tsx:96-101 | the created links' services are the selection, in order |
| Appointments.NewLinksOwner | src/components/AppointmentForm.tsx:96-101 | every created link points at the saved appointment |
| Appointments.ReplaceLinks | src/components/AppointmentForm.tsx:94-101 | after an edit the appointment's links are exactly the new ones, and every other appointment's links are unchanged |
| Appointments.OthersKept | src/db/service.ts:162-176 | deleting one appointment's links leaves another's |
| Appointments.AddLinksOthers | src/components/AppointmentForm.tsx:104-121 | creating links for one appointment leaves every other appointment's links and appends to its own |
| Appointments.EditRoundTrip | src/components/AppointmentForm.tsx:54-59 | saving an edit and reopening the form shows exactly the selected services, in order |
| Appointments.DeleteClearsLinks | src/components/AppointmentForm.tsx:133-146 | after a delete the appointment has no links and the others keep theirs |
| Appointments.AppointmentForm.constructor | src/components/AppointmentForm.tsx:30-45 | an existing appointment's fields and services are loaded; a clicked slot gets the default end time; otherwise the fields are empty |
| Appointments.AppointmentForm.ToggleService | src/components/AppointmentForm.tsx:61-67 | the selection becomes `Toggle` of the old one |
| Appointments.AppointmentForm.Record | src/components/AppointmentForm.tsx:81-113 | the written record carries the form's fields, notes only when non-empty, and the update time now; editing a record with an id keeps that id and its creation time, otherwise the record is created now |
| Appointments.AppointmentForm.HandleSubmit | src/components/AppointmentForm.tsx:69-131 | no customer or no service → nothing written; editing a record with an id → the record put under that id, all its links deleted, one link per selected service with quantity 1; otherwise (no record, or one without an id) → a new record under the next key, created now, then its links; the appointment key generator moves past the saved id, the link generator by one per service, and the product and receipt generators are untouched |
| Appointments.AppointmentForm.AddLinks | src/components/AppointmentForm.tsx:96-101 | the save loop appends exactly `NewLinks` for the selection and leaves every other table and key generator alone |
| Appointments.AppointmentForm.HandleDelete | src/components/AppointmentForm.tsx:133-146 | a stored appointment, once confirmed, loses its links and then its record; otherwise nothing is written; no key generator moves |
| Customers.Matches | src/db/service.ts:74-79 | the empty query matches every customer |
| Customers.Search | src/db/service.ts:72-81 | a customer is found exactly when it is stored and matches, as often as it is stored, and the results keep the store order |
| Customers.SearchFinds | src/db/service.ts:72-81 | a customer is found exactly when its lower-cased name or e-mail contains the lower-cased query, or its phone contains the query as typed; store order kept |
| Customers.SearchEmpty | src/db/service.ts:72-81 | the empty query finds everyone |
| Customers.ContainsLower | src/db/service.ts:77 | lower-casing both sides keeps a match |
| Customers.SearchByName | src/db/service.ts:72-81 | typing part of a stored name finds the customer, in any case the name is stored in |
| Customers.SearchCaseOnlyForPhone | src/db/service.ts:74-79 | lower-casing the query changes only the phone test |
| History.CustomersById | src/components/ReceiptHistory.tsx:29-31 | each customer is under its own id |
| History.Shown | src/components/ReceiptHistory.tsx:47-56 | with no query every receipt passes; a receipt whose number contains the query always passes |
| History.Visible | src/components/ReceiptHistory.tsx:23-56 | the list is newest first and an order-preserving sublist of the sorted receipts |
| History.VisibleContents | src/components/ReceiptHistory.tsx:47-56 | a receipt is listed exactly when it is stored and the filter accepts it |
| History.VisibleEmptyQuery | src/components/ReceiptHistory.tsx:25-27 | without a query every receipt is listed once, newest first |
| History.UnknownCustomerById | src/components/ReceiptHistory.tsx:49-54 | a receipt whose customer is unknown is found by its number only |
| History.FoundByNumber | src/components/ReceiptHistory.tsx:52 | typing a receipt's full number lists it |
| Text.ToLower | src/db/service.ts:215 | `toLowerCase` keeps the length and lower-cases each character |
| Text.TrimStart | src/db/service.ts:215 | a suffix without leading white space; only white space dropped |
| Text.TrimEnd | src/db/service.ts:215 | a prefix without trailing white space; only white space dropped |
| Text.Trim | src/db/service.ts:215 | `trim` is a slice of the name with no white space at either end, and everything cut off is white space |
| Text.ContainsAt | src/db/service.ts:77 | `includes` holds exactly when the query occurs at some position |
| Text.ContainsEmpty | src/db/service.ts:77 | every string includes the empty string |
| Text.NatToString | src/components/ReceiptHistory.tsx:52 | `toString` gives a non-empty digit string, one digit exactly below 10 |
| Text.NatToStringRoundTrip | src/components/ReceiptHistory.tsx:52 | reading back a number's text gives the number |
| Text.LeadingZero | src/components/AppointmentForm.tsx:43 | a leading zero keeps a digit string's value |
| Text.PadStart2 | src/components/AppointmentForm.tsx:43 | `padStart(2, '0')` pads with zeros to two characters, keeping the text at the end |
| Text.HourOf | src/components/AppointmentForm.tsx:42 | the value of the leading digits of the text before the first colon; none when there are no leading digits |
| Text.HourOfDefined | src/components/AppointmentForm.tsx:42 | the hour is `NaN` exactly when the time does not start with a digit |
| Text.LeadingDigits | src/components/AppointmentForm.tsx:42 | the longest leading digit run |
| Text.BeforeColon | src/components/AppointmentForm.tsx:42 | the text before the first colon |
| Text.NonEmpty | src/components/InventoryManager.tsx:53 | `value \|\| undefined`: no value exactly for the empty text |
| Text.OrEmpty | src/components/AppointmentForm.tsx:37 | `value \|\| ''`: the empty text for no value |
| Text.NonEmptyOrEmpty | src/components/AppointmentForm.tsx:37 | loading notes into the form and saving them gives back what was stored, an empty note dropped |
| Seqs.Filter | src/components/POSSystem.tsx:58 | `filter` keeps exactly the elements passing the test |
| Seqs.FilterCount | src/components/POSSystem.tsx:58 | `filter` keeps every copy of what passes the test and no copy of the rest |
| Seqs.FilterIsSubsequence | src/components/ReceiptHistory.tsx:47 | `filter` keeps order |
| Seqs.SortDesc | src/components/InventoryManager.tsx:36-38 | the descending sort is a permutation |
| Seqs.SortDescSorted | src/components/InventoryManager.tsx:36-38 | the descending sort puts larger keys first |
| Seqs.FilterSortedDesc | src/components/ReceiptHistory.tsx:47 | filtering a sorted list keeps it sorted |

## Left out

- IndexedDB plumbing (the `getDB` singleton, `executeTransaction`, schema creation and upgrades) is not modelled. Each service call is one atomic step, and storage faults are not modelled: every write succeeds unless the modelled rule refuses it.
- Interleaving between awaited calls is not modelled, nor transaction scheduling or aborts. Checkout and the form saves are sequences of separate steps.
- Floating point is not modelled. Prices, tips and totals are integer minor units; `parseFloat`, `toFixed` and `NaN` arithmetic are left out. An empty or unparseable tip is `None`.
- Number fields are `Option<int>`. The HTML `required` attribute blocks an empty amount, price or threshold, so the handlers require `Some`; `parseInt`'s truncation of decimals is not modelled.
- Dates are not modelled. `new Date().toISOString()` is the `now` parameter, and dates are compared as integer timestamps.
- Text.ToLower: lower-cases only A–Z; the full Unicode case mapping of `toLowerCase` is not modelled.
- Ledger.LogsFor: how often each entry appears in the lookup is stated by the lemma Ledger.LogsForCount, not by LogsFor's own contract.
- Text.HourOf: reads only leading decimal digits. `parseInt`'s skipping of leading white space and its sign are not modelled; the calendar only passes `HH:00` slot strings.
- Ties between equal timestamps in the newest-first sorts are not modelled: the order among equal keys is left unspecified.
- `InventoryService.update` (a `put` that changes a quantity without a log entry) and the `getAll`/`getById` readers are not modelled. They are outside the ledger invariant, which holds over creation seeds and adjustments only.
- Store.DeleteEach: deletes on a working copy that the method commits at the end. The one-transaction delete loop is modelled as a whole, not store write by store write.
- `alert`, `confirm` (a `confirmed` parameter), rendering, `onSave`/`onCancel` callbacks, the `isSaving`/`isProcessing` flags and the Arabic error texts are not modelled. Errors are the kinds NotFound, InsufficientStock, DuplicateName and ConstraintError.
- Customer, service and calendar screens (CustomerForm, CustomerList, CustomerProfile, ServiceManager, AppointmentCalendar) and the service and customer stores' own CRUD are not part of this model. `CustomerService.search` and `ReceiptHistory`'s filter take the customers as a parameter.
