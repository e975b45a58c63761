# Order subsystem of an e-commerce backend, modelled in Dafny

This project models the order subsystem of a small FastAPI/SQLModel shop. It covers:

- the admin gate;
- purchase-order creation, with its batch product lookup, per-line stock check against one snapshot, order row, and per-line link writes with conditional stock decrements;
- custom (quote) order creation;
- order details;
- the paginated client-order and supplier-order listings, with their count queries and `total_pages`.

The database is an immutable `Models.Store`:

- the product table is a map whose keys equal the product ids;
- users and suppliers are maps;
- client orders, order lines (the `client_order_products` link table) and supplier orders are sequences in insertion order;
- two counters stand for the autoincrementing primary keys.

Every service is a pure function. A creating service returns `(Result, Store)`, and the store it returns keeps every write committed before a failure, exactly as the source's per-statement commits do. `Models.Valid` collects the database invariants the operations rely on: keys below the autoincrement counters, increasing order ids, and unique (order id, product id) link keys.

Modelling choices:

- **Prices** are integer cents, so `round(total_price, 2)` is the identity.
- **Timestamps** are a `now: nat` parameter. `updated_at` is not touched again after creation.
- **Per-line loop.** The purchase's per-line loop is `Services.ApplyLines`. Its outcome is `AllApplied`, `ItemFailed(k)` (the link insert or the lookup failed) or `StockFailed(k)` (the link was written and the decrement was refused).
- **Closed form.** The proofs describe the store after the first `k` lines in closed form (`PurchaseProofs.Applied`): the original links plus one line per item at the snapshot price, and every product's stock lowered by what those items asked of it.
- **Two "custom" tests.**
  - The listing filter tests the joined product's *current* price (`Repositories.JoinedLineMatches` with `Some(true)`).
  - The custom detail view tests the *stored* line unit price (`Services.HasZeroPricedLine`).
  - Both are modelled as written. `ListingProofs.CustomTestsAgree` proves they agree while stored prices are current. `ListingProofs.CustomTestsDisagreeAfterRepricing` shows a store where they part.

Behaviour of the code worth noting:

- **Custom filter.** The listing's custom filter compares the joined `Product.price`, not the line's `unit_price` (app/features/orders/repositories.py:117, 130).
- **Insufficient stock.** A purchase that fails the stock check writes nothing at all. No write happens before the order row, so no earlier line is ever committed (`PurchaseProofs.PurchaseInsufficientStock`).
- **Refused decrements.** In a sequential run over a valid store, a purchase never reaches a refused stock decrement (`PurchaseProofs.PurchaseNeverRefusesDecrement`). A repeated product fails earlier, on its duplicate link key, with the generic items error.
- **Custom orders.** As written, custom-order creation never succeeds (see Findings). The rest of the model uses the behaviour its doc comment describes (app/features/orders/services.py:89).

## Model

| member | source | states |
|---|---|---|
| Models.ParseStatus | app/features/orders/models.py:12-19 | a stored status string reads back as the status carrying that value, and as nothing exactly when no status carries it |
| Models.StatusEnumeration | app/features/orders/models.py:12-19 | there are exactly seven statuses, their stored values are pairwise different, and each value reads back as its status |
| Models.NewClientOrder | app/features/orders/models.py:24-37 | an omitted total defaults to 0 and an omitted status to PENDING; both timestamps are the creation time |
| Models.NewOrderLine | app/features/orders/models.py:46-49 | a link row keeps its order id, product id and unit price; its amount defaults to 1 |
| Models.NewSupplierOrder | app/features/orders/models.py:59-70 | a supplier order's status defaults to "placed" and its amount to 1 |
| Errors.StatusCode | app/features/orders/services.py:19-48 | unknown users get 401, missing admin role 403, missing products/orders 404, insufficient stock 400, and internal or partial failures 500 |
| Schemas.ItemErrors | app/features/orders/schemas.py:6-8 | an item is reported for its product id exactly when the id is below 1, and for its amount exactly when the amount is not positive |
| Schemas.PurchaseRequestErrors | app/features/orders/schemas.py:6-11 | a request body is reported empty exactly when it has no items, and each item is checked as above |
| Schemas.ValidPurchaseRequestMeans | app/features/orders/schemas.py:6-11 | a request body is accepted iff it has at least one item and every item has id >= 1 and amount > 0 |
| Schemas.CustomProductErrors | app/features/orders/schemas.py:13-15 | a custom product request is accepted iff its name has at least 3 and its description at least 5 characters |
| Schemas.ValidateProductCreate | app/features/products/schemas.py:3-8 | the product-creation body refuses a missing supplier id and otherwise carries the fields unchanged |
| Paging.InsertDesc | app/features/orders/repositories.py:136 | inserting into rows sorted newest first keeps them sorted and adds exactly the new row |
| Paging.SortDesc | app/features/orders/repositories.py:136 | `ORDER BY created_at DESC` yields a permutation of the rows sorted by non-increasing key |
| Paging.Offset | app/features/orders/repositories.py:99 | for page >= 1 the offset is (page - 1) * page_size |
| Paging.Limit | app/features/orders/repositories.py:138 | a positive page size admits that many rows; any other admits none |
| Paging.Paginate | app/features/orders/repositories.py:135-139 | the page holds rows offset.. of the listing, as many as the limit and the remaining rows allow, in listing order |
| Paging.PaginateKeepsOrder | app/features/orders/repositories.py:135-139 | a page cut from a newest-first listing is itself newest first |
| Paging.SecondPageOfTwentyFive | app/features/orders/repositories.py:135-139 | page 2 of 25 rows at 10 per page is rows 10 to 19 |
| Repositories.GetUserWithRoles | app/features/orders/repositories.py:17-21 | the user is found exactly when the id is stored, and is that user |
| Repositories.FoundIds | app/features/orders/repositories.py:28 | the stored ids named in the list, each once, and no others |
| Repositories.GetProductsByIds | app/features/orders/repositories.py:23-29 | an empty id list gives no products; otherwise exactly the stored products whose id is listed, each once, as stored |
| Repositories.UpdateProductStock | app/features/orders/repositories.py:42-51 | the decrement succeeds iff the product exists with stock >= amount; on success only that product's stock drops by amount and stays non-negative; on failure nothing changes |
| Repositories.CreateClientOrder | app/features/orders/repositories.py:53-59 | the order is appended under a fresh id, distinct from every stored order under the invariants, and nothing else changes |
| Repositories.AddProductToClientOrder | app/features/orders/repositories.py:61-73 | the insert fails, writing nothing, iff the (order, product) key exists; otherwise it appends exactly the given link and keeps keys unique |
| Repositories.CreateProduct | app/features/orders/repositories.py:31-35 | the product is stored under a fresh id with the given fields, and nothing else changes |
| Repositories.NewestProductByName | app/features/orders/services.py:98-100 | the result is a stored product of that name with no product of that name at a greater id below the bound, and nothing exactly when no product below the bound has that name |
| Repositories.GetClientOrderById | app/features/orders/repositories.py:75-88 | a found order has the id; a non-admin caller naming a client sees only that client's order; nothing is found iff no order passes the filter |
| Repositories.LinesOf | app/features/orders/repositories.py:85-87 | an order's loaded lines are exactly the link rows carrying its id; a one-row table yields that row iff it carries the id |
| Repositories.LinesOfAppend | app/features/orders/repositories.py:85-87 | the lines loaded from a concatenated link table are those of each part in turn, so every row appears once, in the model's insertion order |
| Repositories.FilterOrders | app/features/orders/repositories.py:103-121 | an order is selected iff it passes the client and status filters and, with a custom flag, is joined to an existing product (priced 0 when the flag is true); table order is kept |
| Repositories.CountClientOrders | app/features/orders/repositories.py:123-133 | the count never exceeds the number of orders |
| Repositories.ClientOrdersNewestFirst | app/features/orders/repositories.py:135-136 | the matching orders as a newest-first permutation |
| Repositories.GetClientOrdersPaginated | app/features/orders/repositories.py:90-141 | the page holds, in order, the newest-first matching orders from position (page - 1) * page_size on, exactly as many as the limit and the remaining rows allow; the total is the count query's result |
| Repositories.GetSupplierOrderById | app/features/orders/repositories.py:144-152 | the supplier order with that id, and nothing exactly when none has it |
| Repositories.GetSupplierOrdersPaginated | app/features/orders/repositories.py:154-173 | the page holds, in order, the newest-first supplier orders from position (page - 1) * page_size on, exactly as many as the limit and the remaining rows allow; the total counts every supplier order |
| Services.CheckIsAdmin | app/features/orders/services.py:16-23 | an unknown user is unauthorized, a known user without an "admin" role is forbidden, and otherwise the gate passes and returns the user |
| Services.TotalPages | app/features/orders/services.py:156 | with a positive page size the page count is the least n with n * page_size >= total; otherwise 0 |
| Services.TwentyFiveRowsMakeThreePages | app/features/orders/services.py:156 | 25 rows at 10 per page make 3 pages |
| Services.MakePage | app/features/orders/services.py:156-158 | the response carries the page, the page size, the rows and the total, with total_pages as ceiling division |
| Services.ListClientOrders | app/features/orders/services.py:149-158 | the caller sees only their own orders (of the given status), newest first; the items are the requested page of that listing, echoed with its page number and size, the filtered count as total and total_pages as ceiling division |
| Services.ListAllClientOrders | app/features/orders/services.py:160-170 | the gate runs first and its failure is returned unchanged; otherwise the requested page of all orders, newest first, with their number as total and total_pages as ceiling division |
| Services.ListCustomClientOrders | app/features/orders/services.py:206-216 | after the gate, the requested page of the orders joined to a product priced 0, newest first, with the custom count as total and total_pages as ceiling division |
| Services.ListAllSupplierOrders | app/features/orders/services.py:180-188 | after the gate, the requested page of all supplier orders, newest first, with their number as total and total_pages as ceiling division |
| Services.ShownLines | app/features/orders/services.py:136-141 | every link whose product exists is shown with that product's id and name and the link's amount and unit price, and nothing else is; a single link is shown once iff its product exists |
| Services.ShownLinesAppend | app/features/orders/services.py:136-141 | the lines shown for a concatenation of links are those of each part in turn, so each link is shown at most once, in the order of the given links |
| Services.ShownLinesOfOrder | app/features/orders/services.py:136-141 | every line shown for an order's loaded links is the line of one of that order's links to an existing product |
| Services.GetClientOrderDetails | app/features/orders/services.py:127-147 | not found iff no order passes the owner filter; a non-admin only gets their own order; every link of that order whose product exists is shown, and every shown line is the line of such a link; the list is exactly the shown lines of the order's loaded links, each once |
| Services.GetAnyClientOrderDetails | app/features/orders/services.py:172-177 | after the gate, exactly the owner-unfiltered details of the order with that id (found iff some order has the id, not found otherwise) |
| Services.HasZeroPricedLine | app/features/orders/services.py:224 | true iff some shown line has unit price 0 |
| Services.GetCustomClientOrderDetails | app/features/orders/services.py:218-226 | after the gate, a missing order is not found; a found order is returned with its lines iff one of them is priced 0, and reported not custom otherwise |
| Services.GetSupplierOrderDetails | app/features/orders/services.py:191-204 | after the gate, not found iff no supplier order has the id; supplier and product names are present exactly when those rows exist |
| Services.MissingIds | app/features/orders/services.py:37-38 | each requested id without a fetched product occurs as often as it was requested, and no other id occurs; a single id is kept iff it was not fetched |
| Services.MissingIdsAppend | app/features/orders/services.py:37-38 | the missing ids of a concatenated request are those of each part in turn, so request order is kept |
| Services.ProductMap | app/features/orders/services.py:41 | the map has a key iff some fetched product has that id, and maps it to such a product |
| Services.FirstUnstocked | app/features/orders/services.py:44-48 | the first item the snapshot cannot supply, every item before it being supplied |
| Services.CheckStock | app/features/orders/services.py:44-50 | the check passes iff every item is stocked in the snapshot, then totals price times amount; otherwise it fails with the first unstocked item's error |
| Services.ApplyLines | app/features/orders/services.py:63-80 | the loop only appends links and changes stock levels: every other product field and every other table is unchanged, no product is removed, and a failing item index is in range |
| Services.CreatePurchaseOrder | app/features/orders/services.py:26-83 | a missing product or insufficient stock leaves the store unchanged; success appends one CONFIRMED order for the user under the next id |
| Services.CreateCustomOrder | app/features/orders/services.py:86-124 | failures are internal errors; the custom product (price 0, stock 1, no supplier) is stored under the next product id |
| Services.CreateCustomOrderAsWritten | app/features/orders/services.py:86-99 | the code as written always fails with an internal error and leaves the store unchanged, since the product-creation body is refused before any write |
| PurchaseProofs.LookupCountDetectsMissing | app/features/orders/services.py:35-36 | the lookup's size differs from the number of distinct requested ids iff some requested id has no stored product |
| PurchaseProofs.SnapshotIsStoredRows | app/features/orders/services.py:35-41 | every snapshot entry is the stored product under that id, and only requested ids appear |
| PurchaseProofs.SnapshotAgrees | app/features/orders/services.py:35-41 | when every product is stored, the snapshot holds each requested product as stored |
| PurchaseProofs.LookupFindsAll | app/features/orders/services.py:35-36 | when every requested product is stored, the lookup's size check passes |
| PurchaseProofs.TotalMatchesLines | app/features/orders/services.py:49-71 | the order total equals the sum of amount times unit price over the link rows written |
| PurchaseProofs.ApplyLinesShape | app/features/orders/services.py:63-80 | the loop ends in the closed form of the items it completed; a failed link leaves the completed prefix, a refused decrement also keeps the failing item's link |
| PurchaseProofs.StockFailureKeepsEarlierWrites | app/features/orders/services.py:56-80 | after a refused decrement, the order rows, the links up to and including the failing one, and every earlier decrement persist |
| PurchaseProofs.SequentialApply | app/features/orders/services.py:63-80 | on a fresh order with snapshot stock, the loop never meets a refused decrement, completes iff no product repeats, and otherwise stops at the first repeat |
| PurchaseProofs.DecrementedEffect | app/features/orders/services.py:64-72 | with distinct products, each requested product loses exactly its amount and every other product is untouched |
| PurchaseProofs.PurchaseMissingProduct | app/features/orders/services.py:35-39 | a request naming an unstored product fails with exactly the requested ids that have no product, and writes nothing |
| PurchaseProofs.StockCheckPassesOnStore | app/features/orders/services.py:44-49 | the snapshot check passes iff every item is stocked in the store, and then totals the store's prices |
| PurchaseProofs.FirstUnstockedAgrees | app/features/orders/services.py:44-48 | the snapshot and the store name the same first unstocked item |
| PurchaseProofs.StockCheckFailsOnStore | app/features/orders/services.py:44-48 | a failing check names the first item the store cannot supply |
| PurchaseProofs.PurchaseStopsAtStockCheck | app/features/orders/services.py:44-56 | a failed stock check is returned before any write |
| PurchaseProofs.PurchaseInsufficientStock | app/features/orders/services.py:44-48 | with every product stored but one short, the purchase fails naming the first short product and writes nothing |
| PurchaseProofs.PurchaseReachesLines | app/features/orders/services.py:35-80 | with every product stored and stocked, the purchase's store and result are those of the per-line loop after the order row |
| PurchaseProofs.LinesAfterOrderRowSnapshot | app/features/orders/services.py:63-80 | after the order row, the loop completes iff no product repeats and otherwise stops at the first repeat, against the snapshot |
| PurchaseProofs.LinesAfterOrderRow | app/features/orders/services.py:63-80 | the same, with the written lines priced from the store |
| PurchaseProofs.PurchaseSucceeds | app/features/orders/services.py:26-83 | a purchase of stored, stocked, distinct products appends one CONFIRMED order with total = sum of price x amount, one line per item at the looked-up price, and the decrements |
| PurchaseProofs.PurchaseStockEffect | app/features/orders/services.py:64-72 | after such a purchase each requested product's stock is lower by its amount, and other products are untouched |
| PurchaseProofs.PurchaseRepeatedProduct | app/features/orders/services.py:64-80 | a repeated product id fails with the items error, keeping the order row and the lines and decrements before the first repeat |
| PurchaseProofs.PurchaseSucceedsIff | app/features/orders/services.py:26-83 | under the invariants a purchase succeeds iff its products are stored, stocked and distinct |
| PurchaseProofs.PurchaseNeverRefusesDecrement | app/features/orders/services.py:72-75 | under the invariants the partial-failure error for a refused decrement never arises in a sequential run |
| PurchaseProofs.OrderRowKeepsValid | app/features/orders/repositories.py:53-59 | writing an order row keeps the store invariants |
| PurchaseProofs.ApplyLinesKeepsInvariants | app/features/orders/services.py:63-80 | the loop keeps the store invariants and non-negative stock |
| PurchaseProofs.PurchaseKeepsInvariants | app/features/orders/services.py:26-83 | a purchase, whatever its outcome, keeps the store invariants and non-negative stock |
| PurchaseProofs.PurchaseLowersStock | app/features/orders/services.py:64-72 | with an accepted request body, a successful purchase strictly lowers the stock of every product it names |
| ListingProofs.FilterWithoutConditions | app/features/orders/repositories.py:103-121 | with no filter the page query selects every order |
| ListingProofs.CountMatchesListing | app/features/orders/repositories.py:123-133 | under the invariants the count query equals the number of orders the page query selects, for every filter combination |
| ListingProofs.OffsetBelowTotal | app/features/orders/services.py:156 | a page whose offset is below the total is numbered within total_pages |
| ListingProofs.PageNonEmptyIff | app/features/orders/repositories.py:99-139 | a page is non-empty iff its offset is below the reported total |
| ListingProofs.PageWithinTotal | app/features/orders/services.py:156 | a non-empty page's number is at most total_pages |
| ListingProofs.SupplierPageNonEmptyIff | app/features/orders/repositories.py:154-173 | a supplier-order page is non-empty iff its offset is below the reported total |
| ListingProofs.SupplierPageWithinTotal | app/features/orders/services.py:186 | a non-empty supplier-order page's number is at most total_pages |
| ListingProofs.SecondPageOfTwentyFiveOrders | app/features/orders/services.py:160-170 | with 25 orders, page 2 of size 10 holds 10 orders, total 25, 3 pages |
| ListingProofs.ListedCustomShowsZeroLine | app/features/orders/repositories.py:113-117 | while prices are current, an order the custom filter lists shows a line priced 0 |
| ListingProofs.ZeroLineIsListedCustom | app/features/orders/services.py:224 | while prices are current, an order with a shown line priced 0 passes the custom filter |
| ListingProofs.CustomTestsAgree | app/features/orders/services.py:224 | while prices are current, the listing's and the detail view's custom tests agree |
| ListingProofs.CustomTestsDisagreeAfterRepricing | app/features/orders/services.py:218-226 | after a product is repriced to 0, the listing counts the order as custom while its detail view reports it not custom |
| ListingProofs.OtherClientsOrderNotFound | app/features/orders/services.py:131-134 | a client asking for another client's order gets not found |
| ListingProofs.OwnerSeesOrder | app/features/orders/services.py:127-147 | under the invariants the owner gets exactly that order with its shown lines |
| ListingProofs.AdminGateExamples | app/features/orders/services.py:16-23 | an unknown id gets 401, a customer 403, and an admin-and-customer passes |
| CustomOrderProofs.NewestIsJustCreated | app/features/orders/services.py:96-103 | reading the custom product back by name finds the row just written |
| CustomOrderProofs.CustomWritesKeepValid | app/features/orders/services.py:96-119 | a fresh product, a fresh order and its single line keep the store invariants |
| CustomOrderProofs.CustomOrderCreated | app/features/orders/services.py:86-124 | a custom order adds exactly a price-0 stock-1 product, a CUSTOM_PENDING order with total 0 and one line of amount 1 at price 0, under the invariants |
| CustomOrderProofs.CustomOrderIsCustom | app/features/orders/services.py:218-226 | a new custom order passes the listing's custom filter and its custom detail view returns it with its single line |
| CustomOrderProofs.CustomOrderAsWrittenNeverSucceeds | app/features/orders/services.py:91-96 | the code as written fails at the product-creation body and writes nothing, while the documented behaviour succeeds |

## Left out

- HTTP routes, request parsing, exception-to-response wrapping and `print` logging. Errors are the `Errors.Error` datatype with their status codes.
- Authentication, password hashing and JWT: these are foreign library calls.
- The session context variable and database engine. Each repository write is a store transition that commits on its own.
- Product, supplier and payment CRUD outside the order subsystem. Only the product insert the custom order needs is modelled (`Repositories.CreateProduct`).
- The concurrent oversell race between the stock check and the decrement. The model runs one request at a time, which is why `PurchaseProofs.PurchaseNeverRefusesDecrement` holds in it.
- Final stock after a series of purchases is not proved as a separate lemma. It follows from repeating `PurchaseProofs.PurchaseStockEffect` and `PurchaseProofs.PurchaseKeepsInvariants`.
- Floating-point prices and `round(total_price, 2)`: prices are integer cents.
- Real clock reads and the `onupdate` touch of `updated_at`: time is a parameter.
- Foreign keys are not enforced. A link may name a product that does not exist, as in the database without constraint checks. The joins and `ShownLines` skip such links.
- `products_to_update_stock` (app/features/orders/services.py:50) is filled but never read, so it is not modelled.
- The route-level bound of `page_size` to 1..100 on the owner listing is not modelled. The admin routes have no bound, so every service takes any integer page size and splits on `page_size > 0`.
- Negative `page` or `page_size`: the database's reaction to a negative OFFSET or LIMIT depends on the engine. The model clamps the offset at 0 and treats a non-positive limit as an empty page.
- The order of rows with equal `created_at` is unspecified in SQL. The model fixes one order (a stable insertion sort), and the contracts only rely on newest-first order.
- The order of an order's link rows is unspecified in SQL. The `product_links` relationship declares no ordering, and its eager load has no ORDER BY. The model loads them in insertion order, so `LinesOf`, `LinesOfAppend`, `ShownLinesAppend` and `GetClientOrderDetails` fix that order. The source itself only guarantees that each link of the order appears once.
- `.first()` without `ORDER BY` in the order-id lookup returns the first row in table order. Under the invariants ids are unique, so that row is the only candidate.
- Services.CreatePurchaseOrder: its own contract only states the no-write failures and the order row. The full success, failure and partial-failure behaviour is proved in the PurchaseProofs lemmas listed above.
- Services.CreateCustomOrder: its own contract only states the product write. The exact effect is `CustomOrderProofs.CustomOrderCreated`.
- Repositories.CountClientOrders: its own contract only bounds the count. Equality with the page query is `ListingProofs.CountMatchesListing`, under the store invariants.
- Repositories.NewestProductByName: it searches ids below the next product id rather than the whole table. Under the invariants these are the same rows.

## Findings

| source | as written | input that shows it | evidently intended | confidence | as-written member | corrected member |
|---|---|---|---|---|---|---|
| app/features/orders/services.py:91-99 | custom-order creation builds the product body with `supplier_id=None`, which the product schema requires to be an integer (app/features/products/schemas.py:8). Were the body accepted, lines 97-99 would use `db_session` and `select`, which the module never imports, after the product is committed. | any custom-order request, e.g. name "Bespoke", description "made to order" | create a price-0, stock-1 product without a supplier, a CUSTOM_PENDING order with total 0, and one line of amount 1 at unit price 0 | not executed | Services.CreateCustomOrderAsWritten, shown by CustomOrderProofs.CustomOrderAsWrittenNeverSucceeds | Services.CreateCustomOrder, proved by CustomOrderProofs.CustomOrderCreated |
