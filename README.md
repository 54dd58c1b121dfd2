# Pharmacy stock: a Dafny model of the inventory ledger and its views

This project models the core of a browser-resident pharmacy stock tracker. That core is several pieces:

- The inventory service. It keeps a product catalog and a transaction ledger in two stored collections. It adds, updates and deletes products. It records stock movements ("in" and "out"), each checked against the catalog.
- The transaction history view. It shows the ledger sorted newest first, filters it on optional criteria, pages it ten entries at a time, and validates a stock movement before handing it to the service.
- The stock transaction form and its submit handler.
- The product search: a case-insensitive term and an exact category filter, plus the list of distinct categories.
- The product table's paging and its low-stock marking.
- The product pagination control. It writes "Page c of t" and reads the page numbers back out of that label.
- The dashboard's low-stock alert list, five items per page.
- The stock-by-category chart's aggregation and colours.
- The session rules of the authentication service.

Each source file becomes one Dafny module:

| module | source file | form |
|---|---|---|
| `InventoryService` | `src/utils/inventoryService.js` | datatypes and specification functions, plus the class `InventoryStore`. Its fields are the two stored collections, and its methods change them. |
| `Replay` | `src/utils/inventoryService.js` | runs of `addTransaction` calls, as values. |
| `TransactionHistory` | `src/pages/inventory/components/TransactionHistory.js` | the class `TransactionHistory` with the component's fields, plus the sort, filter and page functions. |
| `TransactionForm` | `src/pages/inventory/components/TransactionForm.js` | the submit guard as a function, plus the class `TransactionFormView`. |
| `ProductSearch` | `src/pages/products/components/ProductSearch.js` | functions and lemmas. |
| `ProductTable` | `src/pages/products/components/ProductTable.js` | the row-building method and its paging lemmas. |
| `ProductPagination` | `src/pages/products/components/ProductPagination.js` | the label functions, plus the class `PaginationControls`. |
| `LowStockAlerts` | `src/pages/dashboard/components/LowStockAlerts.js` | the class `LowStockAlerts`: the closure's state and its click handlers. |
| `DashboardCharts` | `src/pages/dashboard/components/DashboardCharts.js` | the `reduce` loop as a method, plus the colour functions. |
| `AuthService` | `src/utils/authService.js` | the decisions as functions over the stored session, plus the class `SessionStore`. |
| `Common`, `Text` | — | the JavaScript built-ins the core relies on, modelled once: `filter`, `slice` with its index clamping, `Math.ceil` of a division, `new Set` de-duplication, `toLowerCase`, `includes`, `split`, `parseInt`, and the decimal text of an integer. |

Inputs the core takes from its environment are parameters of the model:

- Storage: every write to storage is a boolean parameter saying whether that save succeeded. Reading storage is the current value of a field.
- The clock: its readings are integer parameters (`now`, `today`).
- The form fields: they arrive as integers. For the product and quantity fields, 0 stands for a value that `parseInt` turns into 0 or NaN.
- Whether an optional callback was supplied is a constant of the view object.

### Behaviour of the code worth knowing

- `addTransaction` does not validate the quantity or the type (src/utils/inventoryService.js:194-266). A negative "in" quantity lowers the stock, possibly below zero; `Replay.NegativeInboundMakesStockNegative` exhibits this. A type other than "in" or "out" is recorded with the stock unchanged.
- `addProduct` validates nothing (src/utils/inventoryService.js:123-146).
- `deleteProduct` on an absent id succeeds and leaves the catalog unchanged (src/utils/inventoryService.js:177-191).
- The history sort compares dates only (src/pages/inventory/components/TransactionHistory.js:220-222). Entries with equal dates keep their stored order, since `Array.prototype.sort` is stable.
- `addTransaction` saves the catalog first and the ledger second. If either save fails, the call throws one generic error. Whatever was saved stays saved (src/utils/inventoryService.js:258-265).
- Replay: the stored stock equals the starting stock replayed through the product's ledger entries in ledger order, which is also ascending id order. This is proved for runs whose saves all succeed.

## Model

| member | source | states |
|---|---|---|
| InventoryService.FindProduct | src/utils/inventoryService.js:117-120 | `getProductById` returns a catalog product carrying the requested id, and returns nothing exactly when no product has that id. |
| InventoryService.IndexOf | src/utils/inventoryService.js:153 | `findIndex` returns the first index holding the id, or -1 exactly when no product has it. |
| InventoryService.FindProductAtIndex | src/utils/inventoryService.js:208-245 | `find` and `findIndex` pick the same product. So the stock written back lands on the product whose stock was read. |
| InventoryService.MaxProductId | src/utils/inventoryService.js:127 | `Math.max(...ids, 0)` is non-negative, bounds every product id, and is either 0 or some product's id. |
| InventoryService.MaxTransactionId | src/utils/inventoryService.js:204 | The maximum of a non-empty ledger's ids bounds every id and is attained. |
| InventoryService.NextTransactionId | src/utils/inventoryService.js:202-205 | The new entry's id exceeds every ledger id. It is 1 for an empty ledger and otherwise one more than an existing id. |
| InventoryService.LowStockExact | src/utils/inventoryService.js:285-290 | `getLowStockProducts` holds exactly the products with stock at or below their reorder level. They keep catalog order and keep their multiplicities. |
| InventoryService.RemoveProductSpec | src/utils/inventoryService.js:181 | After the delete filter no product has the id. Every other product stays, in order and with its number of occurrences. An absent id leaves the catalog unchanged. |
| InventoryService.SetStockSpec | src/utils/inventoryService.js:243-255 | Writing the new stock keeps the catalog's length and ids. The matching product gets the new stock and today's date. A lookup of any other id is unaffected. |
| InventoryService.FindAppended | src/utils/inventoryService.js:127-136 | A product appended with an id above every existing id is found by that id. Lookups of every other id are unchanged. |
| InventoryService.AppendKeepsUniqueIds | src/utils/inventoryService.js:127-136 | Appending under max + 1 keeps product ids unique. |
| InventoryService.PrepareErrors | src/utils/inventoryService.js:208-227 | `addTransaction` throws "not found" exactly when no product has the id. It throws "cannot remove more stock than available" exactly when an `out` would take the found product's stock below zero. |
| InventoryService.PrepareEntry | src/utils/inventoryService.js:216-237 | The appended entry carries the next id, the requested product, type, quantity and notes, and the clock's date. Its user is the requested one, or 1 when falsy. Its previous stock is the product's stock. Its new stock adds an `in`, subtracts an `out` (never going below zero), and is unchanged for any other type. |
| InventoryService.InventoryStore.constructor | src/utils/inventoryService.js:196-199 | The store starts with the given catalog and ledger. |
| InventoryService.InventoryStore.AddProduct | src/utils/inventoryService.js:123-146 | The product is appended under id max + 1 with today's date only if the save succeeds; otherwise the call fails and nothing changes. The new id exceeds every old id, a lookup finds the product, and unique ids stay unique. |
| InventoryService.InventoryStore.UpdateProduct | src/utils/inventoryService.js:149-174 | An absent id throws and changes nothing. Otherwise the first matching product is replaced by the data, keeping its id and stamped with today, if the save succeeds. No other position and no id changes. |
| InventoryService.InventoryStore.DeleteProduct | src/utils/inventoryService.js:177-191 | On a successful save the catalog becomes the filtered one, with no product of that id. An absent id leaves the catalog as it was. |
| InventoryService.InventoryStore.AddTransaction | src/utils/inventoryService.js:194-266 | `AddTransactionEffect`. On a lookup or stock error nothing is written. Otherwise the catalog takes the new stock if its save succeeds, and the ledger takes the entry if its save succeeds. The call succeeds only when both saves do. |
| Replay.StepByStore | src/utils/inventoryService.js:194-266 | With both saves succeeding, the store method does exactly one `Step` of the value-level model. |
| Replay.ReplayIsNetChange | src/utils/inventoryService.js:220-227 | Replaying a product's entries over a starting stock adds its total "in" quantity and subtracts its total "out" quantity. |
| Replay.StepLedger | src/utils/inventoryService.js:230-240 | A step appends exactly one entry, for the requested product, type and quantity, with an id above every earlier id. |
| Replay.StepStock | src/utils/inventoryService.js:216-255 | A step moves the requested product's stock from the entry's previous stock to its new stock. Every other product is unchanged. |
| Replay.RunAppends | src/utils/inventoryService.js:230-240 | Over a successful run of calls the old ledger is a prefix of the new one, with exactly one entry appended per call, in call order, each recording its call's movement. |
| Replay.RunStock | src/utils/inventoryService.js:194-266 | Over a successful run, each product's new entries chain: each starts at the stock the previous one left. Its final stored stock equals its starting stock replayed through those entries. |
| Replay.RunKeepsIdsAscending | src/utils/inventoryService.js:202-205 | Ledger ids stay strictly ascending in ledger order. |
| Replay.SingleProductRun | src/utils/inventoryService.js:194-266 | For a run of calls on one product, the entries are appended one per call. The first starts at the initial stock, and each next one starts where the previous ended. The final stock is the initial stock plus all "in" minus all "out" quantities. |
| Replay.StepKeepsStockNonNegative | src/utils/inventoryService.js:220-227 | Stock never goes negative when every "in" quantity is non-negative; an "out" below zero is refused. |
| Replay.NegativeInboundMakesStockNegative | src/utils/inventoryService.js:220-221 | Without a quantity check, an "in" of -5 on a stock of 3 succeeds and leaves -2. |
| TransactionHistory.SortByDateDesc | src/pages/inventory/components/TransactionHistory.js:220-222 | The sorted ledger is a permutation of the stored one, with dates non-increasing. |
| TransactionHistory.SortIsStable | src/pages/inventory/components/TransactionHistory.js:220-222 | Entries of any one date keep their stored relative order. |
| TransactionHistory.FilterHistoryExact | src/pages/inventory/components/TransactionHistory.js:372-410 | The filtered list is an order-preserving sub-list with multiplicities kept. It holds exactly the entries meeting every supplied criterion (id, product, type, user, from date, to date), and both date bounds are inclusive. |
| TransactionHistory.NoFiltersKeepAll | src/pages/inventory/components/TransactionHistory.js:372-410 | With no criteria the filter returns the ledger itself. |
| TransactionHistory.FilterHistoryIdempotent | src/pages/inventory/components/TransactionHistory.js:372-410 | Filtering twice with the same criteria equals filtering once. |
| TransactionHistory.FilteredNewestFirst | src/pages/inventory/components/TransactionHistory.js:373 | Filtering the sorted ledger keeps it newest first. |
| TransactionHistory.PageCountPartitions | src/pages/inventory/components/TransactionHistory.js:239-243 | The page count is 1 for an empty list. Otherwise it is the number of pages of ten whose concatenation gives back the list, each page non-empty and at most ten long. |
| TransactionHistory.VisiblePage | src/pages/inventory/components/TransactionHistory.js:572-582 | The rendered slice is exactly page `currentPage` of the filtered list. It has at most ten entries, is non-empty when the filtered list is, and is newest first. |
| TransactionHistory.TransactionHistory.constructor | src/pages/inventory/components/TransactionHistory.js:155-174 | The view starts empty, on page 1 of 1, with both forms closed, satisfying the view invariant. |
| TransactionHistory.TransactionHistory.CalculateTotalPages | src/pages/inventory/components/TransactionHistory.js:239-249 | The page count becomes ceil(n/10), or 1 when that is 0. The current page is clamped down into range. |
| TransactionHistory.TransactionHistory.LoadTransactions | src/pages/inventory/components/TransactionHistory.js:210-227 | The view's ledger becomes the stored ledger sorted newest first (a permutation of it), and the filtered list an unfiltered copy. The invariant is kept. |
| TransactionHistory.TransactionHistory.GoToPage | src/pages/inventory/components/TransactionHistory.js:360-365 | A page within 1..totalPages becomes current; any other request is ignored. |
| TransactionHistory.TransactionHistory.FilterTransactions | src/pages/inventory/components/TransactionHistory.js:372-416 | The filtered list becomes the filter of the whole ledger, never of the previous result, and is returned. The view goes back to page 1 and keeps its invariant. |
| TransactionHistory.TransactionHistory.ResetFilters | src/pages/inventory/components/TransactionHistory.js:738-749 | The filtered list becomes the whole ledger and the view returns to page 1. |
| TransactionHistory.TransactionHistory.CurrentPageTransactions | src/pages/inventory/components/TransactionHistory.js:572-582 | Under the invariant the visible entries are the current page of the filtered list: at most ten, non-empty when there are any, newest first. |
| TransactionHistory.TransactionHistory.PaginationButtons | src/pages/inventory/components/TransactionHistory.js:612-634 | Under the invariant the controls are drawn exactly when the filtered list has more than ten entries. Previous is disabled exactly when `goToPage(currentPage - 1)` would be ignored, and Next exactly when `goToPage(currentPage + 1)` would be. While drawn, the two are never disabled together. |
| TransactionHistory.TransactionHistory.ShowAddStockForm | src/pages/inventory/components/TransactionHistory.js:332-336 | The add-stock form opens and the remove-stock form closes; nothing else changes. |
| TransactionHistory.TransactionHistory.ShowRemoveStockForm | src/pages/inventory/components/TransactionHistory.js:341-345 | The remove-stock form opens and the add-stock form closes; nothing else changes. |
| TransactionHistory.TransactionHistory.CancelForm | src/pages/inventory/components/TransactionHistory.js:350-354 | Both forms close; nothing else changes. |
| TransactionHistory.TransactionHistory.RecordStockTransaction | src/pages/inventory/components/TransactionHistory.js:299-327 | A missing product fails with "Invalid product" and a non-positive quantity with "Invalid quantity", and neither touches the store. Otherwise the service's effect applies to a request with no user, and its error is passed on. Only on success is the view reloaded from the store. |
| TransactionForm.GuardMirrorsService | src/pages/inventory/components/TransactionForm.js:101-104 | For an existing product, the form refuses an `out` exactly when the service would throw for lack of stock. It never refuses an `in`. |
| TransactionForm.UnknownProductFails | src/pages/inventory/components/TransactionForm.js:96-137 | With no product of that id, a submission past the field check ends in the error alert. For an `out` that happens when the stock is read; for other types the service throws. |
| TransactionForm.TransactionFormView.constructor | src/pages/inventory/components/TransactionForm.js:11-25 | The form starts hidden with type "in". |
| TransactionForm.TransactionFormView.ShowForm | src/pages/inventory/components/TransactionForm.js:141-144 | The form becomes visible with the given type. |
| TransactionForm.TransactionFormView.Cancel | src/pages/inventory/components/TransactionForm.js:77-80 | The form is reset to type "in" and hidden. |
| TransactionForm.TransactionFormView.Submit | src/pages/inventory/components/TransactionForm.js:83-138 | An early outcome (missing fields, not enough stock, or the throw on an absent product) changes nothing. Otherwise the service's effect applies to the form's request. Only its success resets and hides the form and runs the callback when there is one. |
| ProductSearch.FilterProductsSpec | src/pages/products/components/ProductSearch.js:40-59 | The two chained filters equal one filter by the conjunction of the supplied conditions. The result is an order-preserving sub-list holding exactly the products that meet both. |
| ProductSearch.NoSearchKeepsAll | src/pages/products/components/ProductSearch.js:40-59 | With neither a term nor a category the product list is returned unchanged. |
| ProductSearch.SearchIgnoresCase | src/pages/products/components/ProductSearch.js:43-49 | Search terms that differ only in letter case give the same result. |
| ProductSearch.NameMatchIsFound | src/pages/products/components/ProductSearch.js:43-49 | A product whose name contains the term as typed is found, whatever the case of either. |
| ProductSearch.CategoryOptionsSpec | src/pages/products/components/ProductSearch.js:21-37 | The offered categories have no duplicates. They are exactly the products' categories, in the order of each category's first product. |
| ProductTable.RenderProductRows | src/pages/products/components/ProductTable.js:35-70 | An empty page gives the single "No products found" row. Otherwise there is one row per product of the page, in order, carrying the low-stock class exactly when stock is at or below the reorder level. |
| ProductTable.DefaultsShowFirstTen | src/pages/products/components/ProductTable.js:35-40 | With the default page 1 and limit 10, the slice shown is the first ten products, or all of them when there are fewer. |
| ProductTable.ProductPageSpec | src/pages/products/components/ProductTable.js:39-40 | For pages from 1 on, the slice is a contiguous run of at most `limit` products in list order. Pages 1..ceil(n/limit) together give each product once. |
| ProductTable.LowStockRowsAgree | src/pages/products/components/ProductTable.js:52-54 | A row is marked low stock exactly when its product is among those `getLowStockProducts` reports for that page. |
| ProductPagination.LabelWords | src/pages/products/components/ProductPagination.js:27 | The label splits on spaces into "Page", the current page, "of" and the shown total. |
| ProductPagination.LabelHalves | src/pages/products/components/ProductPagination.js:27 | The label splits on " of " into "Page c" and the shown total. |
| ProductPagination.PreviousRoundTrip | src/pages/products/components/ProductPagination.js:35-42 | Reading back a label written by `updatePagination`, Previous asks for page c - 1 exactly when c > 1. |
| ProductPagination.NextRoundTrip | src/pages/products/components/ProductPagination.js:44-57 | Reading back such a label, Next asks for page c + 1 exactly when c is below the shown total, where a total of 0 is shown as 1. |
| ProductPagination.InitialLabelAsksNothing | src/pages/products/components/ProductPagination.js:7-17 | The initial label "Page 1" has no " of ", so neither handler asks for a page. |
| ProductPagination.HandlersFollowButtons | src/pages/products/components/ProductPagination.js:20-57 | After an update with at least one page, each handler asks for a page exactly when its button is enabled. The page asked for lies in 1..t. |
| ProductPagination.PaginationControls.constructor | src/pages/products/components/ProductPagination.js:7-17 | Previous starts disabled, Next enabled, and the label reads "Page 1". |
| ProductPagination.PaginationControls.UpdatePagination | src/pages/products/components/ProductPagination.js:20-28 | Previous is disabled when c <= 1 and Next when c >= t. The label becomes "Page c of t", with t shown as 1 when it is 0. |
| ProductPagination.PaginationControls.PreviousClicked | src/pages/products/components/ProductPagination.js:35-42 | The page requested is the label's page minus one when it is above 1 and a callback exists; it is always at least 1. |
| ProductPagination.PaginationControls.NextClicked | src/pages/products/components/ProductPagination.js:44-57 | The page requested is the label's page plus one when it is below the label's total and a callback exists. |
| Text.ParseIntOfIntToString | src/pages/products/components/ProductPagination.js:27-48 | `parseInt` of an integer's decimal text gives the integer back. |
| LowStockAlerts.PageItemsPartition | src/pages/dashboard/components/LowStockAlerts.js:68-74 | For pages 1..ceil(n/5) the shown slice is that page of the list: one to five items. The pages together give back the list. |
| LowStockAlerts.LowStockAlerts.constructor | src/pages/dashboard/components/LowStockAlerts.js:42-96 | An empty list shows "No low stock items" with both buttons disabled and no handlers. Otherwise page 1 of ceil(n/5) is shown. In both cases the alert invariant holds. |
| LowStockAlerts.LowStockAlerts.RenderPage | src/pages/dashboard/components/LowStockAlerts.js:68-93 | The body shows the page's slice and its number. Previous is disabled exactly on page 1 and Next exactly on the last page. |
| LowStockAlerts.LowStockAlerts.PreviousClicked | src/pages/dashboard/components/LowStockAlerts.js:99-104 | The page moves back one unless already on page 1. The invariant (page in range, body and buttons matching it) is kept. |
| LowStockAlerts.LowStockAlerts.NextClicked | src/pages/dashboard/components/LowStockAlerts.js:106-111 | The page moves forward one unless already on the last page. The invariant is kept. |
| LowStockAlerts.LowStockAlerts.ShownPageSpec | src/pages/dashboard/components/LowStockAlerts.js:68-93 | Whatever page is current, the body shows one to five items of the list, in list order, forming that page. |
| DashboardCharts.AccumulateByCategory | src/pages/dashboard/components/DashboardCharts.js:35-41 | The accumulator's keys, in insertion order, are the distinct categories in order of first product. Each maps to the summed stock of its products. |
| DashboardCharts.CreateCategoryChart | src/pages/dashboard/components/DashboardCharts.js:31-55 | There is one label per distinct category, in first-occurrence order. The values are index-aligned category totals that sum to the total stock. Bar i gets background `hsla(hue, 70%, 60%, 0.7)` and border `hsla(hue, 70%, 60%, 1)`, with hue = (210 + 40i) mod 360. |
| DashboardCharts.TotalsSumToTotalStock | src/pages/dashboard/components/DashboardCharts.js:35-45 | Over distinct keys covering every category, the category totals add up to the total stock. |
| DashboardCharts.Hue | src/pages/dashboard/components/DashboardCharts.js:49 | Every hue lies in [0, 360). |
| DashboardCharts.BorderColour | src/pages/dashboard/components/DashboardCharts.js:53-55 | Replacing the first "0.7" of a background colour changes exactly its alpha, not a digit of the hue, giving the same hue at alpha 1. |
| DashboardCharts.FirstOccurrence | src/pages/dashboard/components/DashboardCharts.js:53-55 | The index found is where the pattern occurs, with no occurrence before it; None means it occurs nowhere. |
| DashboardCharts.OneBarPerCategory | src/pages/dashboard/components/DashboardCharts.js:44 | The labels have no duplicates and are exactly the categories of the products. |
| AuthService.OrEmpty | src/utils/authService.js:55-57 | `value || ""`: a present non-empty string is kept; a missing or empty one becomes "". |
| AuthService.GetCurrentUser | src/utils/authService.js:31-40 | A user is returned exactly when authenticated, and it is the stored session. |
| AuthService.PermissionNeedsLogin | src/utils/authService.js:78-89 | A permission is only ever granted to an authenticated user. |
| AuthService.HasPermissionSpec | src/utils/authService.js:78-89 | A permission is granted exactly when there is a logged-in user with a permissions list, and either the role is admin or the list includes the permission. |
| AuthService.SetThenRead | src/utils/authService.js:46-89 | After storing a session for a user with a truthy id, that user is authenticated and is the current user. Each permission is decided by that user's role and list. |
| AuthService.AdminHasEveryPermission | src/utils/authService.js:85 | An admin with a permissions list is granted every permission. |
| AuthService.AdminWithoutListIsDenied | src/utils/authService.js:82-85 | The list check comes first: an admin session without a permissions list is denied. |
| AuthService.AdminWithEmptyListIsGranted | src/utils/authService.js:82-85 | An empty list is truthy: an admin holding one is granted everything. |
| AuthService.SessionStore.constructor | src/utils/authService.js:7 | The store starts with the given session slot and location. |
| AuthService.SessionStore.SetCurrentUser | src/utils/authService.js:46-64 | A missing user or a falsy id leaves the stored session as it was. Otherwise the user's session replaces it, and the user is then authenticated. |
| AuthService.SessionStore.Logout | src/utils/authService.js:69-71 | The session is removed: no one is authenticated and no permission is granted. |
| AuthService.SessionStore.RequireAuth | src/utils/authService.js:96-104 | The result is whether the user is authenticated. If not, the location hash becomes "#login"; the session is never changed. |

## Left out

- Storage, JSON and seed data: `localStorage`, `JSON.parse`/`JSON.stringify`, and `fetch` of the seed files when a collection is absent (src/utils/inventoryService.js:13-71) are outside the model. Each collection is a field, and each save is a success flag.
- `getAllTransactions` (src/utils/inventoryService.js:269-282) has no member of its own: reading the ledger is the `transactions` field of `InventoryService.InventoryStore`, and its fallback to `[]` for a missing or unreadable entry belongs to storage.
- The failure of `JSON.parse` in `isAuthenticated` and `getCurrentUser` is not modelled. A stored session is either a well-formed session or absent.
- Asynchrony: `await` and the interleaving of concurrent calls are left out; the model runs each operation to completion in turn.
- The history view's own `addTransaction` (src/pages/inventory/components/TransactionHistory.js:271-289) and `saveTransactions` (src/pages/inventory/components/TransactionHistory.js:254-264) are outside the modelled view. The former calls the service without awaiting it, so it reloads before the write lands.
- DOM rendering, alerts, messages, event listener wiring and the debounced search input are left out. Only the data each view computes and the state its handlers change are modelled.
- The history's save-button and apply-filters handlers (src/pages/inventory/components/TransactionHistory.js:684-731) read form fields and parse dates; only `filterTransactions` itself is modelled.
- Dates: clock values are integers, and date strings are not parsed. In particular, a date-only `dateTo` (midnight of that day) is not modelled.
- Extra fields: the `productName` and `timestamp` fields that `recordStockTransaction` spreads into its request, and any other extra spread fields, are not modelled.
- TransactionHistory.TransactionHistory.RecordStockTransaction: a quantity is an integer here, so `parseInt` of a fractional or non-numeric quantity is not modelled.
- `price`, `expiryDate`, currency formatting: product fields that no core rule reads are not modelled, and the model has no floating point.
- Chart.js rendering and `createTransactionsChart`, whose data come from `Math.random`, are left out.
- `toLowerCase` is modelled on ASCII letters only; Unicode case mapping is left out.
- `parseInt` is modelled on optional leading whitespace, an optional sign and decimal digits; hexadecimal prefixes and other forms are left out.
- `Object.keys` order for integer-like keys (which JavaScript lists first, in numeric order) and category names that collide with `Object.prototype` members are not modelled. The accumulator's keys follow insertion order.
- The form's `result.success` false branch (src/pages/inventory/components/TransactionForm.js:131-133) cannot be reached, since `addTransaction` either succeeds or throws, so it has no outcome of its own.
- The catch branch of `loadTransactions` (src/pages/inventory/components/TransactionHistory.js:228-232) handles storage errors, which the model does not have.
- Truthiness of ids: a user or product id is an integer here, with 0 standing for every falsy value (`undefined`, `null`, `""`, `NaN`).
