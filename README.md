# Fadj Ma pharmacy marketplace — verified model of the core

Fadj Ma is a pharmacy marketplace. Patients use a mobile app to fill a cart, check out and follow an order's progress. Pharmacies use a mobile screen and a web portal to manage stock and move orders along. An admin verifies new pharmacies. A REST API stores users, pharmacies, drugs, stock rows and orders. This project models the few places where the code holds real logic. Each is written in Dafny in the shape it has in the source, and the properties the code promises are proved.

- **Cart** (`cart.dfy`, module `Cart`):
  - Editing a line item's quantity, and removing an item.
  - The amounts in whole FCFA: subtotal, a flat 2000 delivery fee, and the total.
  - The two checkout guards: an empty cart, and a delivery with no address.
  - The checkout sequence. The held cart and the stored cart are fields of the `CartScreen` class. The cart is emptied only after the order exists and the stored copy is removed.
- **Order status on mobile** (`status_text.dfy`, `professional_order_detail.dfy`, `order_detail.dfy`):
  - The lower-case status vocabulary, its French labels and its colours.
  - The professional screen's successor table: pending → confirmed → processing → in_delivery → delivered.
  - The professional's advance and cancel buttons, and the update of the held order.
  - The patient's five-step timeline and the patient's cancel button.
- **Order board on the web** (`web_orders.dfy`): the upper-case vocabulary (PENDING, READY, COMPLETED, CANCELLED), with:
  - `handleStatusUpdate`;
  - the three columns and their counters;
  - the buttons on each card.
- **Inventory screen** (`inventory_screen.dfy`):
  - A search on name or SKU that ignores case, plus an optional category filter. The screen recomputes the filtered list into a field whenever its inputs change.
  - The category chips.
  - The low-stock list.
- **Server routes** over in-memory tables (`db.dfy`, `pharmacy_routes.dfy`, `auth_routes.dfy`). A `Store` object holds one sequence per table. A row's id is its position: new rows are appended, and no row is ever deleted or reordered.
  - Drug search, a pharmacy's inventory listing, adding stock (find or create the drug, then insert a stock row), and the dashboard counters.
  - The order-status patch, the pending-pharmacy list and pharmacy verification.
  - Registration and login.

Six behaviours of the code are easy to miss:

- **Status changes.** The server's patch route (`server/src/routes/pharmacy.ts:137-150`) writes any status it receives. `PharmacyRoutes.UpdateOrderStatus` does the same: it will, for example, move a COMPLETED order back to PENDING. The lifecycle discipline exists only in the client tables, and that is where it is proved.
- **Clearing the cart.** The held cart is cleared only after the order is created and the storage key is removed (`mobile/src/screens/CartScreen.tsx:82-95`). If the removal fails, the order exists but the cart is kept, and the screen reports that the order could not be created. `Cart.CartScreen.Checkout` models this as the `ClearFailed` outcome.
- **Stock values.** The inventory route (`server/src/routes/pharmacy.ts:61-84`) checks neither the quantity nor the price, so the model accepts any integer for both.
- **Routes the app calls.** The mobile screens post new orders to `/api/orders` and professional updates to `/api/professionals/orders/:id` (`mobile/src/services/api.ts:101-105`, `206-210`). The server mounts only `/api/auth` and `/api/pharmacy` (`server/src/index.ts:19-20`). Against this server, the cart's `created` outcome is therefore always none and the professional screen's `apiOk` always false. The model keeps both outcomes as parameters.
- **Patient cancel button.** The patient's cancel button is shown under the condition `OrderDetail.CancelShown` models, but it has no press handler (`mobile/src/screens/OrderDetailScreen.tsx:202`). Pressing it does nothing.
- **Registration.** The pharmacy row is inserted after the user row, outside any transaction (`server/src/routes/auth.ts:19-39`). When that insert fails, the answer is 500 "Server error" but the user row stays, so a retry answers 400 "User already exists". `AuthRoutes.Register` models this through its `pharmacyInsertOk` outcome.

Status values are kept as strings, as in the source. The tables' behaviour on unknown strings is part of what is proved.

## Model

| member | source | states |
|---|---|---|
| Cart.WithoutItem | mobile/src/screens/CartScreen.tsx:56-59 | removing an id keeps the remaining items in their original order (a subsequence), drops every item with that id, and keeps every copy of every other item (same multiplicity) |
| Cart.WithQuantity | mobile/src/screens/CartScreen.tsx:50-53 | same length and order; only the quantity of the items with the matching id changes, every other field and item stays the same |
| Cart.UpdatedQuantity | mobile/src/screens/CartScreen.tsx:45-53 | a quantity ≤ 0 behaves exactly like removing the item; a positive one replaces the quantity of the matching items only |
| Cart.Subtotal | mobile/src/screens/CartScreen.tsx:61-63 | an empty cart has subtotal 0, and a one-line cart has subtotal price × quantity of that line |
| Cart.SubtotalNonNegative | mobile/src/screens/CartScreen.tsx:61-63 | with non-negative prices and quantities the subtotal is non-negative |
| Cart.SubtotalAppend | mobile/src/screens/CartScreen.tsx:61-63 | the subtotal of a concatenation is the sum of the subtotals (the fold is a sum of price × quantity) |
| Cart.SubtotalWithQuantity | mobile/src/screens/CartScreen.tsx:50-63 | in a cart with distinct ids, setting one item's quantity replaces that item's old line total by its new one in the subtotal, and nothing else moves |
| Cart.SubtotalQuantityDelta | mobile/src/screens/CartScreen.tsx:45-63 | in a cart with distinct ids, updating one item to a positive quantity q moves the subtotal by price × (q − old quantity) |
| Cart.SubtotalWithoutItem | mobile/src/screens/CartScreen.tsx:56-63 | in a cart with distinct ids, removing an item lowers the subtotal by exactly its line total |
| Cart.DeliveryFee | mobile/src/screens/CartScreen.tsx:65 | the fee is 2000 iff the mode is delivery, and 0 iff it is pickup |
| Cart.Total | mobile/src/screens/CartScreen.tsx:65-67 | total = subtotal at pickup and subtotal + 2000 for delivery |
| Cart.TotalExample | mobile/src/screens/CartScreen.tsx:61-67 | [1000×2, 500×1] gives subtotal 2500, total 2500 at pickup and 4500 delivered |
| Cart.CheckoutRequest | mobile/src/screens/CartScreen.tsx:69-87 | an empty cart is rejected first; a delivery with an empty address is rejected next; otherwise the request carries the cart, the mode, the address for delivery (none for pickup) and subtotal + fee |
| Cart.CartScreen.constructor | mobile/src/screens/CartScreen.tsx:16-19 | the screen starts with an empty cart, delivery mode, no address and not loading |
| Cart.CartScreen.LoadCart | mobile/src/screens/CartScreen.tsx:25-34 | a persisted cart becomes the held cart; with none stored the held cart is unchanged |
| Cart.CartScreen.SaveCart | mobile/src/screens/CartScreen.tsx:36-43 | storage and the held cart both take the new list when the write succeeds; neither changes when it fails |
| Cart.CartScreen.UpdateQuantity | mobile/src/screens/CartScreen.tsx:45-54 | the held and stored cart become UpdatedQuantity of the old cart when storage succeeds, otherwise nothing changes |
| Cart.CartScreen.RemoveItem | mobile/src/screens/CartScreen.tsx:56-59 | the held and stored cart become WithoutItem of the old cart when storage succeeds, otherwise nothing changes |
| Cart.CartScreen.Checkout | mobile/src/screens/CartScreen.tsx:69-99 | a rejected checkout sends nothing and changes nothing; otherwise the request of CheckoutRequest is sent; the cart is kept when creation fails or the storage removal fails, and is emptied (held and stored) only when both succeed; loading ends false |
| StatusText.KnownStatuses | mobile/src/screens/ProfessionalOrderDetailScreen.tsx:67-77 | the label table knows exactly the five chain statuses and cancelled |
| StatusText.ChainDistinct | mobile/src/screens/ProfessionalOrderDetailScreen.tsx:79-89 | the delivery chain has five distinct statuses and does not contain cancelled |
| StatusText.StatusLabel | mobile/src/screens/ProfessionalOrderDetailScreen.tsx:67-77 | a known status gets its fixed French label; the result is the raw string exactly when the status is unknown |
| StatusText.StatusColor | mobile/src/screens/OrderDetailScreen.tsx:27-44 | total; the grey default is returned exactly for unknown statuses |
| StatusText.ColorsDistinguishKnown | mobile/src/screens/OrderDetailScreen.tsx:27-44 | two different known statuses get different colours |
| StatusText.LabelsDistinguishKnown | mobile/src/screens/ProfessionalOrderDetailScreen.tsx:67-77 | two different known statuses get different labels |
| ProfessionalOrderDetail.NextStatus | mobile/src/screens/ProfessionalOrderDetailScreen.tsx:79-89 | a successor exists iff the status is on the chain and not delivered, and it is the next link of the chain; delivered, cancelled and unknown statuses have none |
| ProfessionalOrderDetail.AdvanceAlongChain | mobile/src/screens/ProfessionalOrderDetailScreen.tsx:79-89 | from the i-th link, n advances land exactly on link i + n, or run out past delivered |
| ProfessionalOrderDetail.AdvanceOffChain | mobile/src/screens/ProfessionalOrderDetailScreen.tsx:85-88 | a cancelled or unknown status cannot be advanced |
| ProfessionalOrderDetail.PendingToDelivered | mobile/src/screens/ProfessionalOrderDetailScreen.tsx:79-89 | from pending, four advances reach delivered, delivered has no successor, and more advances lead nowhere |
| ProfessionalOrderDetail.NoRevisit | mobile/src/screens/ProfessionalOrderDetailScreen.tsx:79-89 | no status is visited twice along the advance path (no rollback) |
| ProfessionalOrderDetail.OfferedActions | mobile/src/screens/ProfessionalOrderDetailScreen.tsx:107-249 | the advance button is offered iff a successor exists and targets exactly it; cancel is offered iff the status is neither cancelled nor delivered |
| ProfessionalOrderDetail.OfferedIffAllowed | mobile/src/screens/ProfessionalOrderDetailScreen.tsx:136-249 | a status can be requested by some shown button iff the lifecycle allows it: one step along the chain, or cancel before the end |
| ProfessionalOrderDetail.TerminalAndUnknownActions | mobile/src/screens/ProfessionalOrderDetailScreen.tsx:238-249 | delivered and cancelled orders show no button; an unknown status shows only cancel |
| ProfessionalOrderDetail.ProfessionalOrderScreen.constructor | mobile/src/screens/ProfessionalOrderDetailScreen.tsx:20-22 | the screen holds the loaded order and its notes, not updating |
| ProfessionalOrderDetail.ProfessionalOrderScreen.UpdateOrderStatus | mobile/src/screens/ProfessionalOrderDetailScreen.tsx:31-46 | sends the new status with the current notes; after a successful call the held order has the new status and every other field unchanged; after a failed call it is unchanged |
| ProfessionalOrderDetail.ProfessionalOrderScreen.Press | mobile/src/screens/ProfessionalOrderDetailScreen.tsx:136-249 | pressing a shown button sends that button's own target with the current notes, and that target is a transition the lifecycle allows; on success the held order takes it, on failure nothing changes |
| OrderDetail.Timeline | mobile/src/screens/OrderDetailScreen.tsx:58-64 | five steps, one per chain status in order; the first is always completed; the completion flags are prefix-closed for every status string |
| OrderDetail.TimelineOnChain | mobile/src/screens/OrderDetailScreen.tsx:58-64 | for the i-th chain status exactly the first i + 1 steps are completed |
| OrderDetail.TimelineOffChain | mobile/src/screens/OrderDetailScreen.tsx:58-64 | a cancelled (or unknown) order shows exactly pending and confirmed as completed |
| OrderDetail.CompletedOnChain | mobile/src/screens/OrderDetailScreen.tsx:58-64 | the i-th chain status shows exactly i + 1 completed steps |
| OrderDetail.AdvanceCompletesOneStep | mobile/src/screens/OrderDetailScreen.tsx:58-64 | one advance by the professional completes exactly one more step of the patient's timeline |
| OrderDetail.CancelAgreesWithProfessional | mobile/src/screens/OrderDetailScreen.tsx:201 | the patient's cancel button is shown in exactly the statuses where the professional is offered cancel |
| InventoryScreen.FilteredInventory | mobile/src/screens/InventoryScreen.tsx:77-91 | the list is a subsequence of the inventory; an item is kept, with all its copies, iff (the query is empty or the lower-cased name or SKU contains the lower-cased query) and (no category is set or the item has it), and no copy of any other item is kept |
| Common.IncludesAt | mobile/src/screens/InventoryScreen.tsx:82-83 | the `includes` test holds iff the query occurs at some position of the string as a contiguous block |
| InventoryScreen.FilterStepsAgree | mobile/src/screens/InventoryScreen.tsx:77-91 | the two successive filter steps of filterInventory produce exactly the one-pass list |
| InventoryScreen.NoFilterShowsAll | mobile/src/screens/InventoryScreen.tsx:78-91 | an empty query and no category return the whole inventory |
| InventoryScreen.FilterAgainUnchanged | mobile/src/screens/InventoryScreen.tsx:77-91 | filtering the filtered list again with the same settings returns it unchanged |
| InventoryScreen.Categories | mobile/src/screens/InventoryScreen.tsx:94 | every item's category appears, every chip comes from some item, and no chip appears twice |
| InventoryScreen.CategoriesInFirstAppearanceOrder | mobile/src/screens/InventoryScreen.tsx:94 | the chips are ordered by the position of their first item |
| InventoryScreen.DistinctInOrder | mobile/src/screens/InventoryScreen.tsx:94 | the Set-then-Array conversion keeps the same members, has no duplicates, and keeps first-appearance order |
| InventoryScreen.LowStockItems | mobile/src/screens/InventoryScreen.tsx:96-98 | exactly the items with quantity ≤ minQuantity (equality counts as low), each with its multiplicity in the inventory, in inventory order |
| InventoryScreen.InventoryView.constructor | mobile/src/screens/InventoryScreen.tsx:18-22 | a fresh screen has no query and no category and lists the whole inventory |
| InventoryScreen.InventoryView.FilterInventory | mobile/src/screens/InventoryScreen.tsx:77-92 | after the step-by-step filtering, the published list is FilteredInventory of the current settings |
| InventoryScreen.InventoryView.SetSearchQuery | mobile/src/screens/InventoryScreen.tsx:28-30 | changing the query republishes the filtered list |
| InventoryScreen.InventoryView.SetFilterCategory | mobile/src/screens/InventoryScreen.tsx:28-30 | changing the category republishes the filtered list |
| InventoryScreen.InventoryView.SetInventory | mobile/src/screens/InventoryScreen.tsx:28-30 | replacing the inventory republishes the filtered list |
| WebOrders.WithStatus | web/src/pages/Orders.tsx:11-13 | only the status of the orders with the matching id changes; length, order and all other fields stay the same, and an unknown id leaves the list unchanged |
| WebOrders.Column | web/src/pages/Orders.tsx:28-33 | a column is the subsequence of orders with exactly that status |
| WebOrders.ColumnCountIsMultiplicity | web/src/pages/Orders.tsx:28 | a column's counter equals the number of orders holding its status |
| WebOrders.InOneColumnOnly | web/src/pages/Orders.tsx:33-111 | an order is in a column iff it has that column's status, so it is in at most one column, and a cancelled order is in none |
| WebOrders.BoardPartition | web/src/pages/Orders.tsx:28-106 | the three counters plus the orders with no column add up to the number of orders |
| WebOrders.BoardActions | web/src/pages/Orders.tsx:48-94 | a PENDING card offers READY and CANCELLED, a READY card offers COMPLETED, any other card offers nothing |
| WebOrders.BoardMovesForward | web/src/pages/Orders.tsx:48-94 | every button moves an order strictly forward; only PENDING → READY leads to a card with further buttons |
| WebOrders.MoveShiftsOneCard | web/src/pages/Orders.tsx:11-13 | with distinct ids, a move takes exactly one card out of its status and adds one to the target's |
| WebOrders.OrdersBoard.constructor | web/src/pages/Orders.tsx:5-9 | the board holds the given orders |
| WebOrders.OrdersBoard.HandleStatusUpdate | web/src/pages/Orders.tsx:11-13 | the held list becomes WithStatus of the old list |
| WebOrders.OrdersBoard.Click | web/src/pages/Orders.tsx:49-94 | clicking a card's button sets that card's status to the target, which is strictly further along |
| Db.UserByPhone | server/src/routes/auth.ts:13 | none iff no user has the phone; otherwise a user with that phone |
| Db.PharmacyOfUser | server/src/routes/auth.ts:52-55 | none iff the user owns no pharmacy; otherwise a pharmacy the user owns |
| Db.FirstDrugNamed | server/src/routes/pharmacy.ts:66 | none iff no drug has the name; otherwise a drug with exactly that name |
| Db.DrugById | server/src/routes/pharmacy.ts:23-36 | none iff no drug has the id; otherwise that drug |
| Db.Store.constructor | server/src/routes/pharmacy.ts:5 | a store over valid tables holds exactly those tables |
| PharmacyRoutes.Search | server/src/routes/pharmacy.ts:17-44 | a missing or empty query fails with 400 "Query required" and nothing else does; otherwise a row is returned iff its drug name contains the query and its quantity is > 0, in table order |
| PharmacyRoutes.SearchMiss | server/src/routes/pharmacy.ts:23-37 | a query that no drug name contains returns an empty list |
| PharmacyRoutes.Inventory | server/src/routes/pharmacy.ts:47-58 | exactly the stock rows of that pharmacy, in table order |
| PharmacyRoutes.AddInventory | server/src/routes/pharmacy.ts:61-84 | reuses the first drug with that name and creates one only if none exists; inserts exactly one new stock row with the given values and leaves existing rows unchanged; an unknown pharmacy fails with 500 "Update failed" and no stock row; the store stays valid |
| PharmacyRoutes.PharmacyStats | server/src/routes/pharmacy.ts:87-117 | totalOrders is the number of the pharmacy's orders created since the start of the day; pendingOrders the number of its PENDING orders, of any date; lowStock the number of its stock rows with quantity ≤ 10, which are the inventory listing's rows with quantity ≤ 10; dailySales is the sum over the day's COMPLETED orders and 0 when there are none; the completed orders are among the day's orders |
| PharmacyRoutes.TotalOrdersCount | server/src/routes/pharmacy.ts:102 | the totalOrders filter keeps exactly as many rows as there are positions with the pharmacy's id and a creation time at or after the start of the day |
| PharmacyRoutes.PendingOrdersCount | server/src/routes/pharmacy.ts:103 | the pendingOrders filter keeps exactly as many rows as there are positions with the pharmacy's id and status PENDING |
| PharmacyRoutes.LowStockCount | server/src/routes/pharmacy.ts:104 | the lowStock filter keeps exactly as many rows as there are positions with the pharmacy's id and quantity ≤ 10 |
| PharmacyRoutes.DailySalesBounds | server/src/routes/pharmacy.ts:94-108 | no matching order gives sales 0; non-negative prices give non-negative sales |
| PharmacyRoutes.SalesOfToday | server/src/routes/pharmacy.ts:94-102 | the sales rows are the COMPLETED rows among the rows counted by totalOrders |
| PharmacyRoutes.LowStockOfInventory | server/src/routes/pharmacy.ts:104 | the lowStock rows are exactly the inventory listing's rows with quantity ≤ 10 |
| PharmacyRoutes.SalesBounded | server/src/routes/pharmacy.ts:94-100 | with non-negative prices, the sum over any filtered set of orders lies between 0 and the sum over all of them |
| PharmacyRoutes.UpdateOrderStatus | server/src/routes/pharmacy.ts:137-150 | writes whatever status it is sent to an existing order, all else unchanged; an unknown id fails with 500 "Update status failed" |
| PharmacyRoutes.PendingPharmacies | server/src/routes/pharmacy.ts:155-165 | exactly the pharmacies whose verification status is PENDING, in table order |
| PharmacyRoutes.WithVerification | server/src/routes/pharmacy.ts:173-179 | the row gets the given status and isVerified iff it is VERIFIED; its other fields and every other row are unchanged |
| PharmacyRoutes.VerifyLeavesPendingList | server/src/routes/pharmacy.ts:155-179 | after a verify with a status other than PENDING, the pending list is the old pending list without that pharmacy |
| PharmacyRoutes.VerifyPharmacy | server/src/routes/pharmacy.ts:168-184 | an existing pharmacy's row becomes WithVerification of it; an unknown id fails with 500 "Verification failed"; nothing else changes |
| AuthRoutes.PharmacyName | server/src/routes/auth.ts:33 | the details' name when given and non-empty, the user's name otherwise |
| AuthRoutes.NewPharmacies | server/src/routes/auth.ts:29-39 | one pharmacy row iff the role is PHARMACY and details are supplied, owned by the new user, named by PharmacyName, starting PENDING and not verified |
| AuthRoutes.Register | server/src/routes/auth.ts:8-46 | a taken phone fails with 400 "User already exists" and leaves the store unchanged; otherwise exactly one user with the given name, phone, password and role is added, and then NewPharmacies with answer the new id, or, when the pharmacy insert fails, no pharmacy with answer 500 "Server error" while the user row stays; the tables stay valid; afterwards the phone is taken, and logging in with the same phone and password succeeds as the new user |
| AuthRoutes.RegisteredTablesValid | server/src/routes/auth.ts:13-39 | appending a user with a free phone and the next id, plus at most one pharmacy owned by that user, keeps ids, unique phones, unique owners and foreign keys valid |
| AuthRoutes.FindsNewUser | server/src/routes/auth.ts:13-26 | after appending a user whose phone was free, the phone lookup finds that user |
| AuthRoutes.Login | server/src/routes/auth.ts:49-70 | success iff the user with that phone exists and the stored password equals the given one, otherwise 401 "Invalid credentials"; success returns "mock-jwt-token" with the user's id, name, role and pharmacy |
| AuthRoutes.LoginIffCredentials | server/src/routes/auth.ts:52-59 | with unique phones, login succeeds iff some user has exactly that phone and password, and answers as that user |

## Left out

- AuthRoutes.Login, AuthRoutes.Register, PharmacyRoutes.AddInventory, PharmacyRoutes.UpdateOrderStatus, PharmacyRoutes.VerifyPharmacy: a request body that lacks a field is not modelled; every body field is a required value. In the code a missing field arrives as `undefined`, which the database client reads as "no value given". So:
  - login or register without `phone` makes the unique lookup throw, and the answer is 500 "Server error" rather than 401 or 400 (`server/src/routes/auth.ts:13`, `52-55`). The mobile login sends `{ email, password }`, so it always takes this path (`mobile/src/contexts/AuthContext.tsx:60-63`).
  - adding stock without `drugName` makes the drug lookup unfiltered: the first drug of any name is reused (`server/src/routes/pharmacy.ts:66`).
  - the status patch without `status` writes nothing (`server/src/routes/pharmacy.ts:144`).
  - verify without `status` keeps the verification status but sets `isVerified` to false (`server/src/routes/pharmacy.ts:176-177`).
- Device storage, `fetch`, alert dialogs and navigation are not modelled as such. Their outcomes are method parameters: `storageOk`, `apiOk`, `created` (the new order's id, or none when the call fails) and `clearOk`. The stored cart is a field.
- Cart.CartScreen.LoadCart: a read error and a malformed stored cart are not separated from "nothing stored". All three leave the held cart unchanged, as the source's catch does.
- Amounts are whole integers. JavaScript numbers with fractions, NaN from `Number(...)`, and floating-point rounding are not modelled.
- InventoryScreen.FilteredInventory: `toLowerCase` is modelled for ASCII letters only. Unicode case folding, such as accented capitals, is not modelled.
- StatusText.StatusLabel and ProfessionalOrderDetail.NextStatus: JavaScript objects also answer for inherited keys such as `constructor`. A status string equal to such a key is treated as unknown here.
- The screens' loaders (`loadOrderDetails`, the mock inventory) are constructor parameters. So are the web board's sample orders. The screens that show "loading" or "not found" for a missing order are not modelled.
- The professional screen's notes text box is not modelled as an edit operation. The notes are whatever the screen holds when an update is sent.
- `getExpiringItems` is not modelled, because it depends on the wall clock. The stats route's "start of today" is a parameter (`dayStart`).
- The payment, subscription, analytics and home screens are not modelled: they hold mock data, timers or floating-point display only.
- GET / (all pharmacies) is not modelled: it returns the table unchanged, and its latitude and longitude are unused. GET /:pharmacyId/orders is not modelled either: it sorts by creation date and joins the patient's name.
- The joined rows that search and the pending list embed (pharmacy, drug, owner name) are not modelled. The routes return the base rows.
- A query string given several times (an array in Express) is not modelled. The query is one optional string.
- Database failures other than a missing row are not modelled: the catch-all 500 answers ("Search failed", "Fetch failed", "Stats failed", "Server error").
- Ids are natural numbers equal to the row position. The database's generated string ids are not modelled, and neither is a route parameter that does not parse.
- The database schema is not part of this model. Three of its rules are assumed:
  - phone is unique;
  - a pharmacy row starts with verification status PENDING and `isVerified` false;
  - a stock row's pharmacy must exist, so AddInventory with an unknown pharmacy fails after the drug was already created.
- AuthRoutes.Register: the pharmacy's coordinates are not modelled. A failing user insert (a role the enum rejects) is not modelled either: it answers 500 "Server error" before anything is written. The failing pharmacy insert (for example a missing address) is modelled, as an outcome parameter.
- Concurrency is not modelled: last-write-wins races between simultaneous requests, and the three screens' asynchronous state updates. Every operation runs to completion on its own.
- The search match is case-sensitive substring inclusion. The database's own collation is not modelled.
