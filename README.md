# IMS inventory engine, modelled in Dafny

This project models the inventory management system's engine. The backend
keeps six MongoDB collections: items, sales, the seller, category and brand
catalogs, and a stock history. The stock history is written only by an
`addStock` definition that a later one overrides, and it is read only by
getStockHistory; neither is modelled (see "## Left out"), so the model holds
the other five. Its controller creates, edits, deletes, sells and restocks
items, and it answers four read-only queries: the paged item listing, the
sales list, the totals and the daily sales series. The frontend side covers
two screens. The inventory table filters the items it shows, guards its sell
and add-stock dialogs, and prefills the edit dialog. The sales page filters
the sales list and drops a sale from it after the server has deleted it.

Layout, one module per file:

- `wrappers.dfy`: `Option` and `Result`.
- `text.dfy`: the string operations the code uses. These are Mongoose's
  `trim` setter, `toLowerCase`, `includes`, and the code-point order behind
  `sort({ name: 1 })`.
- `seqs.dfy`: `filter`, deletion of one document, and a stable sort.
- `records.dfy`: the Item, Sale and Seller schemas (`models/*.js`) as
  datatypes, what casting a new document does, and what the validators check
  on save.
- `catalog.dfy`: a seller, category or brand collection as the class
  `Registry`. Names are unique and trimmed. `Registry.Create` is
  createSeller, createCategory and createBrand.
- `inventory.dfy`: the class `Store`, holding the item and sale collections
  and the three registries. Its methods are the controller's state-changing
  handlers. Each one is proved against a function of the old state, and each
  keeps the invariant `Valid()`.
- `queries.dfy`: getItem, getSales, getStats and getDailySales as functions
  of the state, with lemmas that tie the queries to the operations.
- `inventory_list.dfy`: the inventory table component. It has its filter,
  its guards and the class `ListState` holding its state hooks.
- `manage_sales.dfy`: the sales page. It has its filter and the class
  `SalesPage` with `HandleDelete`.

Behaviours of the code that the model keeps as written:

- sellItem accepts a zero or negative quantity.
- sellItem reads the stock and then decrements it in a separate step.
- The addStock that takes effect writes no history entry and checks nothing.
- Updates run no validators, so stock can become negative.

Modelling choices:

- An error is a `Result` value. Save failures are modelled as errors too:
  `ValidationFailed` for a schema validator, `DuplicateName` for the unique
  index, and `NegativeSkip` for a negative skip.
- ObjectIds are fresh numbers drawn from a counter.
- Prices and totals are integers.
- A timestamp is in milliseconds. Its day key is the UTC day number.

## Model

| member | source | states |
|---|---|---|
| Records.CastItem | IMS-main/backend/models/item.js:4-36 | a new item stores the trimmed name, and the trimmed description when one is given (an absent one stays absent); id, stock, price and the three references are stored as given |
| Records.ItemSchemaValid | IMS-main/backend/models/item.js:4-13 | an item is saved only with a non-empty name (required) and a stock of at least 0 (min: 0); the price has no bound |
| Records.CastItemSchema | IMS-main/backend/models/item.js:4-13 | a built item passes the validators exactly when its name is non-blank after trimming and its stock is not negative |
| Records.SaleSchemaValid | IMS-main/backend/models/sale.js:3-29 | a sale is saved only with a non-empty item name; item, price, quantity and total are always present and carry no range |
| Records.NewSaleSchema | IMS-main/backend/models/sale.js:9-12 | a sale snapshot passes the validators exactly when the sold item's name is not empty, whatever the quantity |
| Records.CatalogSchemaValid | IMS-main/backend/models/seller.js:4-9 | a seller (category, brand) is saved only with a non-empty name |
| Records.NewSale | IMS-main/backend/controllers/inventoryController.js:181-187 | the sale snapshots the item's id, name and price, stores the quantity, has `total = price * quantity`, and is dated at its creation time (the schema default) |
| Records.DayOf | IMS-main/backend/controllers/inventoryController.js:383 | the day key of a timestamp is the UTC day that contains it |
| Catalog.FindByName | IMS-main/backend/controllers/inventoryController.js:19 | `findOne({ name })` on the cast (trimmed) filter value returns an entry with exactly that name, or none exists |
| Catalog.FindById | IMS-main/backend/controllers/inventoryController.js:77 | populating a reference returns the entry with that id, or null when none exists |
| Catalog.FindByNameUnique | IMS-main/backend/models/seller.js:7 | with unique names, resolving an entry's name yields that entry |
| Catalog.FindByIdUnique | IMS-main/backend/models/seller.js:3-10 | with unique ids, an entry populates from its own id |
| Catalog.NewEntryOutcome | IMS-main/backend/models/seller.js:4-9 | saving a new entry trims the name; it succeeds exactly when the trimmed name is non-empty and not yet taken; a missing or blank name is a validation failure; a taken name is a duplicate |
| Catalog.NewEntryKeepsWellFormed | IMS-main/backend/models/seller.js:4-9 | a successful save keeps names unique, required and trimmed, and the new name then resolves to the new entry |
| Catalog.Registry.Create | IMS-main/backend/controllers/inventoryController.js:220-230 | createSeller appends exactly the new entry on success, leaves the collection unchanged on failure, and keeps it well formed |
| Inventory.FindItem | IMS-main/backend/controllers/inventoryController.js:166-169 | `findById` returns the position of an item carrying the id, or no item carries it |
| Inventory.FindSale | IMS-main/backend/controllers/inventoryController.js:325 | the lookup by id of `findByIdAndDelete` on the sale log returns the position of a sale carrying the id, or no sale carries it |
| Inventory.FindItemUnique | IMS-main/backend/controllers/inventoryController.js:166 | with unique ids, looking up an item's id yields that item's own position |
| Inventory.NewItemOutcome | IMS-main/backend/controllers/inventoryController.js:15-47 | a missing or falsy field (so stock 0 or price 0) is rejected before any lookup; then category, brand and seller resolve in that order, each by its trimmed name (a `findOne({ name })` filter goes through the schema's trim setter), and the first miss is reported; a success stores the resolved ids, the trimmed name, the stock and the price, and passes the schema; a validation failure means a blank name or a negative stock |
| Inventory.UpdateOutcome | IMS-main/backend/controllers/inventoryController.js:99-124 | the three names are looked up trimmed, and an unresolved reference among them is reported before item existence is checked; a success replaces name (trimmed), price, stock and the three references, and keeps the id and the description |
| Inventory.UpdateRunsNoValidators | IMS-main/backend/controllers/inventoryController.js:109-120 | an update with stock -3 and a blank name is accepted, which the schema would refuse on create |
| Inventory.PaddedNamesCreateAlike | IMS-main/backend/controllers/inventoryController.js:19-34 | a create request whose category, brand and seller names carry extra surrounding whitespace has exactly the outcome of the bare names |
| Inventory.PaddedNamesUpdateAlike | IMS-main/backend/controllers/inventoryController.js:99-101 | an update whose three reference names carry extra surrounding whitespace has exactly the outcome of the bare names |
| Inventory.Store.CreateItem | IMS-main/backend/controllers/inventoryController.js:9-53 | the answer is `NewItemOutcome` on the current catalogs; the item is appended only on success; sales are unchanged; the invariant is kept |
| Inventory.Store.UpdateItem | IMS-main/backend/controllers/inventoryController.js:93-137 | the answer is `UpdateOutcome`; on success only that item's slot changes; on failure nothing changes; sales are unchanged |
| Inventory.Store.DeleteItem | IMS-main/backend/controllers/inventoryController.js:139-159 | an unknown id fails with no change; otherwise exactly that item is removed and returned, no item with the id remains, and the sales are untouched |
| Inventory.Store.SellItem | IMS-main/backend/controllers/inventoryController.js:161-198 | an unknown id fails with no change; `stock < quantity` fails with no change, so `quantity == stock` sells out to 0; otherwise the stock drops by exactly `quantity` and one snapshot sale is appended; a blank item name makes the sale save fail after the decrement |
| Inventory.Store.AddStock | IMS-main/backend/controllers/inventoryController.js:283-298 | the item's stock rises by `quantity` and nothing else changes; no history is kept; an unknown id answers a null item without error |
| Inventory.Store.DeleteSale | IMS-main/backend/controllers/inventoryController.js:322-341 | an unknown id fails with no change; otherwise exactly that sale is removed; the items, and so the stock, are unchanged |
| Inventory.Store.CreateSeller | IMS-main/backend/controllers/inventoryController.js:220-230 | the seller registry gets the outcome of `NewEntryOutcome` and no other collection changes |
| Inventory.Store.CreateCategory | IMS-main/backend/controllers/inventoryController.js:232-242 | as createSeller, on the category registry |
| Inventory.Store.CreateBrand | IMS-main/backend/controllers/inventoryController.js:244-254 | as createSeller, on the brand registry |
| Queries.ByNameIsTotalPreorder | IMS-main/backend/controllers/inventoryController.js:80 | the name order of `sort({ name: 1 })` is total and transitive |
| Queries.MatchingByName | IMS-main/backend/controllers/inventoryController.js:63-80 | the result is a permutation of the items that match every supplied filter (category and brand by id, inclusive price bounds, case-insensitive name search), sorted by name |
| Queries.MatchingMembers | IMS-main/backend/controllers/inventoryController.js:63-76 | an item is in the sorted result exactly when it is stored and matches the filter |
| Queries.Window | IMS-main/backend/controllers/inventoryController.js:78-79 | `.skip(n).limit(l)` yields the items from position n on: at most l of them, all of them for limit 0, and at most abs(l) for a negative l |
| Queries.CeilDiv | IMS-main/backend/controllers/inventoryController.js:84 | `Math.ceil(a / b)` is the integer q with `(q - 1) * b < a <= q * b` |
| Queries.Populate | IMS-main/backend/controllers/inventoryController.js:77 | each of the three references populates to a catalog entry with its id, or to null exactly when no entry has that id |
| Queries.GetItem | IMS-main/backend/controllers/inventoryController.js:56-90 | a negative skip is refused; otherwise the page holds the matching items in name order from `skip = (page - 1) * limit`, populated; `totalPages` is the ceiling of count over limit (null for limit 0); `currentPage` is the page asked for (default 1; limit defaults to 10) |
| Queries.GetItemPageMatchesInOrder | IMS-main/backend/controllers/inventoryController.js:75-80 | every item on a page is stored and matches the filter, and the page is in name order |
| Queries.MatchIsOnItsPage | IMS-main/backend/controllers/inventoryController.js:73-80 | with a positive limit every matching item appears on some page at some offset, so paging loses nothing |
| Queries.SaleItem | IMS-main/backend/controllers/inventoryController.js:303-310 | a sale's item populates to null exactly when no item has the id; otherwise to that item's current name, with its category and brand each populated to the entry with its id or null when none has it |
| Queries.GetSales | IMS-main/backend/controllers/inventoryController.js:300-320 | every sale appears exactly once, newest first, each with its populated item |
| Queries.GetStats | IMS-main/backend/controllers/inventoryController.js:352-376 | the three totals are 0 on empty collections |
| Queries.TotalStockUpdate | IMS-main/backend/controllers/inventoryController.js:354-356 | changing one item changes the stock total by the difference in its stock |
| Queries.TotalStockRemove | IMS-main/backend/controllers/inventoryController.js:354-356 | deleting an item takes its stock out of the total |
| Queries.TotalsRemove | IMS-main/backend/controllers/inventoryController.js:358-366 | deleting a sale takes its quantity and total out of the sold and revenue totals |
| Queries.SaleMovesStats | IMS-main/backend/controllers/inventoryController.js:175-188 | a successful sale lowers total stock by `quantity`, raises total sold by `quantity` and raises revenue by `price * quantity` |
| Queries.DeleteSaleMovesStats | IMS-main/backend/controllers/inventoryController.js:325 | deleting a sale lowers sold and revenue and leaves total stock as it was |
| Queries.DailySales | IMS-main/backend/controllers/inventoryController.js:378-403 | the buckets are in strictly ascending day order; their days are exactly the days with a sale; and each day's summed revenue and quantity are those of that day's sales |
| Queries.DailyBucketsAreDaySums | IMS-main/backend/controllers/inventoryController.js:380-388 | each bucket holds exactly the total and quantity sums of its own day's sales, and there are no empty days |
| Queries.DailySalesAddUpToStats | IMS-main/backend/controllers/inventoryController.js:380-387 | the daily series adds up to the revenue and quantity totals of getStats |
| Text.Trim | IMS-main/backend/models/item.js:7 | the result is the middle `s[a..b]` of the input with only whitespace outside it, and it neither starts nor ends with whitespace |
| Text.TrimCut | IMS-main/backend/models/seller.js:8 | when only whitespace lies outside a trimmed middle part of a string, that part is what trimming gives |
| Text.TrimIgnoresPadding | IMS-main/backend/models/seller.js:8 | whitespace added before and after a trimmed string is removed again by trimming, so a padded name and the bare name trim alike |
| Text.TrimmedIsFixed | IMS-main/backend/models/item.js:7 | trimming a string already stored trimmed leaves it unchanged |
| Text.ContainsIff | IMS-main/backend/controllers/inventoryController.js:70 | the substring search holds exactly when the term occurs at some position |
| InventoryList.FilterItems | IMS-main/frontend/src/components/InventoryList.js:94-100 | every listed item is on the page and passes the filter, and every passing item is listed |
| InventoryList.FilterItemsIff | IMS-main/frontend/src/components/InventoryList.js:94-100 | an item is listed exactly when its lower-cased name contains the lower-cased search, and each select is empty or names the item's category (brand) |
| InventoryList.FilterItemsIsSubsequence | IMS-main/frontend/src/components/InventoryList.js:94-100 | the listed items are a subsequence of the page, in its order |
| InventoryList.EmptyFilterKeepsAll | IMS-main/frontend/src/components/InventoryList.js:94-100 | with all three filters empty the whole page is listed |
| InventoryList.Parsed | IMS-main/frontend/src/components/InventoryList.js:282 | the quantity input stores the parsed number, or NaN, and never `''` again |
| InventoryList.SellCheck | IMS-main/frontend/src/components/InventoryList.js:57-79 | a quantity above the stock is refused first with the stock message; otherwise a quantity at most 0 is refused with the quantity message |
| InventoryList.AddStockCheck | IMS-main/frontend/src/components/InventoryList.js:119-128 | a quantity at most 0 is refused with the quantity message, and nothing else is |
| InventoryList.ConfirmSaleMatchesGuards | IMS-main/frontend/src/components/InventoryList.js:328 | the Confirm Sale button is disabled exactly when a submit would be refused |
| InventoryList.ConfirmAddStockMatchesGuard | IMS-main/frontend/src/components/InventoryList.js:382 | the Confirm Add Stock button is disabled exactly when a submit would be refused |
| InventoryList.SellAcceptsExactly | IMS-main/frontend/src/components/InventoryList.js:59-79 | a numeric quantity passes exactly when `0 < n <= stock` |
| InventoryList.AddStockAcceptsExactly | IMS-main/frontend/src/components/InventoryList.js:119 | a numeric quantity passes exactly when positive |
| InventoryList.BlankIsRefused | IMS-main/frontend/src/components/InventoryList.js:46-50 | the initial `''` quantity is always refused, with the stock message only when the stock is negative |
| InventoryList.NaNPassesGuards | IMS-main/frontend/src/components/InventoryList.js:281-293 | a cleared input holds NaN, which passes both guards and leaves both buttons enabled |
| InventoryList.NameOrEmpty | IMS-main/frontend/src/components/InventoryList.js:158-160 | the prefilled name is the entry's name when the reference populated, else `''` (a `''` name becomes `''` either way) |
| InventoryList.Prefill | IMS-main/frontend/src/components/InventoryList.js:152-161 | the edit form copies name, price and stock, and takes the three reference names or `''` |
| InventoryList.UnchangedEditIsNoOp | IMS-main/frontend/src/components/InventoryList.js:152-161 | saving an untouched prefill through updateItem gives back the item unchanged, when names and ids are unique, the stored names are trimmed and all three references exist |
| InventoryList.MissingReferenceBlocksEdit | IMS-main/frontend/src/components/InventoryList.js:158-160 | when a reference of the item is gone its select prefills `''`, which resolves to nothing, so saving untouched is refused as a missing reference |
| InventoryList.ListState.constructor | IMS-main/frontend/src/components/InventoryList.js:45-50 | both dialogs start closed with quantity `''` and today's date, and no callback has been called |
| InventoryList.ListState.SellClick | IMS-main/frontend/src/components/InventoryList.js:52-55 | the row's item is selected and the sell dialog opens; nothing else changes |
| InventoryList.ListState.SaleQuantityChange | IMS-main/frontend/src/components/InventoryList.js:281-293 | the parsed value is stored even above the stock; nothing else changes |
| InventoryList.ListState.SellSubmit | IMS-main/frontend/src/components/InventoryList.js:57-88 | the outcome is `SellCheck` of the quantity and the selected item's stock; a refusal changes nothing; an acceptance calls `onSell` once with the item id and the form, closes the dialog and resets the form to quantity 1, no buyer and today |
| InventoryList.ListState.AddStockClick | IMS-main/frontend/src/components/InventoryList.js:113-116 | the row's item is selected for stock and the dialog opens; nothing else changes |
| InventoryList.ListState.StockQuantityChange | IMS-main/frontend/src/components/InventoryList.js:350-362 | the parsed value is stored even when not positive; nothing else changes |
| InventoryList.ListState.AddStockSubmit | IMS-main/frontend/src/components/InventoryList.js:118-136 | the outcome is `AddStockCheck`; a refusal changes nothing; an acceptance calls `onAddStock` once, closes the dialog and resets the form to quantity 1 and today |
| InventoryList.ListState.EditClick | IMS-main/frontend/src/components/InventoryList.js:152-163 | the item is selected (the same state the sell dialog reads), the form holds its prefill, and the edit dialog opens |
| InventoryList.ListState.EditSubmit | IMS-main/frontend/src/components/InventoryList.js:501-504 | `onEdit` is called once with the selected id and the form, unguarded, and the dialog closes |
| ManageSales.FilterSales | IMS-main/frontend/src/pages/ManageSalesPage.js:48-52 | every listed sale is in the list and passes the filter, and every passing sale is listed |
| ManageSales.FilterSalesIff | IMS-main/frontend/src/pages/ManageSalesPage.js:48-52 | a sale is listed exactly when its lower-cased item name contains the lower-cased search, and the date input is empty or occurs in its date string |
| ManageSales.FilterSalesIsSubsequence | IMS-main/frontend/src/pages/ManageSalesPage.js:48-52 | the listed sales are a subsequence of the list, in its order |
| ManageSales.EmptyFilterKeepsAll | IMS-main/frontend/src/pages/ManageSalesPage.js:48-52 | with both inputs empty every sale is listed |
| ManageSales.WithoutId | IMS-main/frontend/src/pages/ManageSalesPage.js:88 | no row with the id remains, and every other row is kept |
| ManageSales.WithoutIdIsSubsequence | IMS-main/frontend/src/pages/ManageSalesPage.js:88 | the remaining rows keep their order |
| ManageSales.WithoutAbsentId | IMS-main/frontend/src/pages/ManageSalesPage.js:88 | removing an id that is not listed leaves the list unchanged |
| ManageSales.WithoutIdRemovesOneRow | IMS-main/frontend/src/pages/ManageSalesPage.js:88 | with unique ids, removing a row's id takes out exactly that row, as the server's deleteSale does |
| ManageSales.SalesPage.HandleDelete | IMS-main/frontend/src/pages/ManageSalesPage.js:84-105 | without confirmation nothing happens; a failed server delete leaves the list unchanged; a successful one leaves the list minus exactly the rows with that id |

## Left out

- HTTP and Express plumbing is not modelled: routing, request parsing, status codes and JSON responses. Each handler's outcome is a `Result` value.
- Concurrency is not modelled. Each handler is one sequential step, so the lost update between sellItem's read and its `$inc` is not represented.
- Numbers are integers. Floating-point prices, `parseFloat` of the price bounds and `parseInt` of the page are not modelled.
- The name search is a case-insensitive substring match. Regular-expression metacharacters in the search term are not interpreted.
- `toLowerCase` is modelled for ASCII letters only. This applies to the backend's case-insensitive option and to both frontend filters.
- The day key is the UTC day number, not the `"%Y-%m-%d"` string. For 4-digit years the two sort the same way.
- Which of two items with equal names comes first, and which of two sales with equal dates, is left to the database. The model keeps collection order.
- The first `addStock` definition (inventoryController.js:200-218) is overwritten by the later one, so its StockHistory entry never happens. getStockHistory is not part of this model.
- getSellers, getCategories and getBrands only list a collection, and they are not modelled.
- Category and brand model files are not part of this model. They are taken to have the seller's shape.
- createItem's request fields are taken as already-cast numbers. The add-product page (InventoryPage.js:19-27, :62-69) posts stock and price as the strings of its text inputs, and the string `"0"` is truthy, so from that page an item with stock 0 or price 0 passes the required-fields check (inventoryController.js:15) and is then cast by the schema. `Inventory.TruthyNumber` on an integer captures only a JSON number 0.
- updateItem is modelled with all six fields present, as the edit form always sends them. A request that omits fields is not modelled.
- InventoryList rendering, toasts, modals, page buttons and the other screens are not modelled. The `onChange` handlers of the buyer and date inputs and of the edit dialog's inputs are not modelled either. The buyer, date and edit name and select inputs copy the input into the form; the edit price input stores `parseFloat` of it and the edit stock input `parseInt` of it (InventoryList.js:414, :425), which can be NaN.
- InventoryList.ListState.SellSubmit requires a selected item. Without one, it and AddStockSubmit and EditSubmit would throw in the browser, and the dialogs cannot be opened without selecting an item.
- The parent page's callbacks, `window.confirm`, the network request and the current date are parameters. In particular, `today` stands for `new Date().toISOString().split('T')[0]`.
- Authentication and the login and registration pages are not modelled.
