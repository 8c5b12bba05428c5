# nopCommerce Web API plugin: order queries and order shipments

This project is a Dafny model of two parts of the nopCommerce Web API plugin.

The first part is the order query service, `OrderApiService`:
- the `Where*` filter combinators over nullable criteria;
- the composed order query and its `sinceId` cursor;
- the count, the lookup by id, and the product and category queries;
- `ToApiList` paging.

The second part is the shipments resource under `/api/orders/{orderId}/shipments`:
- the rules for checking requests in `ShipmentsController`, across its five endpoints;
- the paging and item-insertion loop of `ShipmentApiService`;
- the lazy `ShipmentItems` collection of `ShipmentDto`;
- the defaults of `ShipmentsParametersModel`.

The model follows the shape of the code:
- A LINQ query over a repository table is a function over a `seq` of records.
- Order tables and criteria values are datatypes.
- Objects whose fields are updated in place are classes, and the methods that update them carry `modifies` clauses. These are `ShipmentDto` (its lazy item collection) and the shipment store.
- `ShipmentsParametersModel` is a class with only a constructor, because the code reads its properties and never changes them.
- The `Shipment` entity is a datatype, although the controller changes the object returned by a lookup in place. "## Left out" says what that leaves out.
- `ShipmentApiService.InsertShipmentItemsAsync` is a method with a `for` loop.
- The controller actions are methods that return a `Response` datatype. That datatype stands for the HTTP result.

Five behaviours of the code are modelled as written and proved as such:
- `sinceId` is ignored when shipments are paged.
- The category query keeps deleted orders, while the product query drops them.
- The order count never filters by ids.
- Reading one shipment does not check that it belongs to the route's order.
- Deleting a missing shipment is not guarded. The store then faults, and the action ends in an unhandled error.

The configuration constants `MinLimit`, `MaxLimit`, `DefaultLimit` and `DefaultPageValue` stay uninterpreted (module `Configurations`). Their values are not part of this model. Where a property needs an ordering between them, it is stated as a precondition.

Modules:
- `Sequences`: LINQ `Where`, `Distinct` and `FirstOrDefault` as functions, together with their characterising properties.
- `Paging`: `ApiList` as `Skip(pageIndex * pageSize).Take(pageSize)`.
- `Orders`: the order records, `OrderBy(Id)`, and the pair `Distinct().OrderBy(Id)`.
- `OrderApi`: `OrderApiService`.
- `Shipping`: shipment records and the shipment store.
- `ShipmentDtos`: `ShipmentDto`, its wire names, and `Delta<ShipmentDto>.Merge`.
- `ShipmentApi`: `ShipmentApiService`.
- `ShipmentsParameters`: `ShipmentsParametersModel`.
- `Controllers`: `ShipmentsController`.

## Model

| member | source | states |
|---|---|---|
| Sequences.Filter | Nop.Plugin.Api/Services/OrderApiService.cs:76 | LINQ `Where`: an element is kept iff it satisfies the predicate. The result is a subsequence of the input, and each kept value keeps its multiplicity. |
| Sequences.FilterConjunction | Nop.Plugin.Api/Services/OrderApiService.cs:75-84 | Two `Where`s in a row keep exactly the elements satisfying both predicates, and the order of the two does not matter. |
| Sequences.FilterAll | Nop.Plugin.Api/Services/OrderApiService.cs:76 | A `Where` whose predicate every element satisfies returns its input. |
| Sequences.Distinct | Nop.Plugin.Api/Services/OrderApiService.cs:85 | LINQ `Distinct`: the same members as the input, and no duplicates. |
| Sequences.DistinctLength | Nop.Plugin.Api/Services/OrderApiService.cs:85 | `Distinct` yields one element per distinct input value. |
| Sequences.NoDuplicatesByCount | Nop.Plugin.Api/Services/OrderApiService.cs:85 | A sequence in which every value occurs at most once has no duplicates. |
| Sequences.FirstWhere | Nop.Plugin.Api/Services/OrderApiService.cs:56 | `FirstOrDefault(p)`: `None` iff no element satisfies `p`. Otherwise it is the element at the first index satisfying `p`. |
| Paging.ApiPage | Nop.Plugin.Api/Services/OrderApiService.cs:188-189 | `ApiList(query, pageIndex, pageSize)`: the contiguous slice that starts at `pageIndex * pageSize` and holds at most `pageSize` elements. It is empty past the end, and a negative index or size counts as 0. |
| Paging.FirstPageIsPrefix | Nop.Plugin.Api/Services/OrderApiService.cs:188-189 | Page 0 is the prefix of the query that fits on one page. |
| Paging.PageBounds | Nop.Plugin.Api/Services/ShipmentApiService.cs:14 | A page holds at most `pageSize` elements, all taken from the query. |
| Paging.PageElementAt | Nop.Plugin.Api/Services/OrderApiService.cs:50 | Element `k` of the query is at position `k % size` of page `k / size`. |
| Paging.PageIsSlice | Nop.Plugin.Api/Services/OrderApiService.cs:50 | Page `i` is the query between `i*size` and `(i+1)*size`, each clipped to the length of the query. |
| Paging.PagesCover | Nop.Plugin.Api/Services/OrderApiService.cs:50 | Pages `0..n-1` laid end to end are exactly the first `n*size` elements of the query, so paging loses and repeats nothing. |
| Orders.InsertById | Nop.Plugin.Api/Services/OrderApiService.cs:86 | Inserting into a list sorted by `Id` keeps it sorted and adds exactly that order. |
| Orders.SortById | Nop.Plugin.Api/Services/OrderApiService.cs:86 | `OrderBy(order => order.Id)`: sorted by id, and a permutation of the input. |
| Orders.DistinctOrderById | Nop.Plugin.Api/Services/OrderApiService.cs:85-86 | `Distinct().OrderBy(Id)`: the same members as the input, no duplicates, sorted by id, and one element per distinct order. |
| Orders.CountAtMostOne | Nop.Plugin.Api/Services/OrderApiService.cs:85 | In a sequence without duplicates, such as the output of `Distinct`, every value occurs at most once. |
| Orders.StrictlyAscending | Nop.Plugin.Api/Services/OrderApiService.cs:86 | A sorted list without duplicates, drawn from a table whose ids are unique, has strictly ascending ids. |
| OrderApi.WhereNotDeleted | Nop.Plugin.Api/Services/OrderApiService.cs:76 | Keeps exactly the orders that are not deleted, in order. |
| OrderApi.WhereOrderStatus | Nop.Plugin.Api/Services/OrderApiService.cs:119-123 | A null status returns the input unchanged. Otherwise it keeps exactly the orders with that `OrderStatusId`, in order and with their multiplicities. |
| OrderApi.WhereShippingStatus | Nop.Plugin.Api/Services/OrderApiService.cs:125-129 | The same, for `ShippingStatusId`. |
| OrderApi.WherePaymentStatus | Nop.Plugin.Api/Services/OrderApiService.cs:131-135 | The same, for `PaymentStatusId`. |
| OrderApi.WhereCreatedAtMin | Nop.Plugin.Api/Services/OrderApiService.cs:137-141 | A null bound returns the input unchanged. Otherwise it keeps exactly the orders created strictly after the bound, so an order created at the bound is dropped. |
| OrderApi.WhereCreatedAtMax | Nop.Plugin.Api/Services/OrderApiService.cs:143-147 | A null bound returns the input unchanged. Otherwise it keeps exactly the orders created strictly before the bound. |
| OrderApi.WhereStoreId | Nop.Plugin.Api/Services/OrderApiService.cs:149-153 | A null store returns the input unchanged. Otherwise it keeps exactly the orders of that store, in order. |
| OrderApi.WhereCustomerId | Nop.Plugin.Api/Services/OrderApiService.cs:155-159 | A null customer returns the input unchanged. Otherwise it keeps exactly the orders of that customer, in order. |
| OrderApi.WhereOrderIdIn | Nop.Plugin.Api/Services/OrderApiService.cs:161-165 | A null id set returns the input unchanged. Otherwise it keeps exactly the orders whose id is in the set, in order. |
| OrderApi.WhereIdAfter | Nop.Plugin.Api/Services/OrderApiService.cs:45-48 | The `sinceId` cursor: with `sinceId > 0` it keeps exactly the orders with `Id > sinceId`; otherwise the query is unchanged. |
| OrderApi.Repeat | Nop.Plugin.Api/Services/OrderApiService.cs:171-174 | A join row repeated `n` times: exactly `n` copies of the order. |
| OrderApi.ProductRows | Nop.Plugin.Api/Services/OrderApiService.cs:171-174 | The join rows for one order: non-empty iff some order item of that order has the product, and every row is that order. |
| OrderApi.JoinProduct | Nop.Plugin.Api/Services/OrderApiService.cs:171-174 | The order-item join: an order is in the result iff it is in the query and has an item with the product. |
| OrderApi.WhereHasProductId | Nop.Plugin.Api/Services/OrderApiService.cs:167-175 | A null product returns the input unchanged. Otherwise an order is in the result iff it is in the query and one of its order items has that `ProductId`. |
| OrderApi.CategoryRows | Nop.Plugin.Api/Services/OrderApiService.cs:181-185 | The two-way join rows for one order: non-empty iff one of its items has a product in the category, and every row is that order. |
| OrderApi.JoinCategory | Nop.Plugin.Api/Services/OrderApiService.cs:181-185 | The order-item and product-category join: an order is in the result iff it is in the query and one of its items' products is in the category. |
| OrderApi.WhereHasCategoryId | Nop.Plugin.Api/Services/OrderApiService.cs:177-186 | A null category returns the input unchanged. Otherwise an order is in the result iff it is in the query and one of its items' products is in that category. |
| OrderApi.FilterChain | Nop.Plugin.Api/Services/OrderApiService.cs:75-84 | The `Where` chain, applied in source order, keeps exactly the non-deleted orders that match every criterion. |
| OrderApi.GetOrdersQuery | Nop.Plugin.Api/Services/OrderApiService.cs:71-86 | An order is in the query iff it is in the table, is not deleted, and matches every criterion. The query has no duplicates, is sorted by id, and has one entry per matching order. |
| OrderApi.GetOrdersQueryStrictlyAscending | Nop.Plugin.Api/Services/OrderApiService.cs:85-86 | With unique ids in the table, the query's ids are strictly ascending. |
| OrderApi.CursorQuery | Nop.Plugin.Api/Services/OrderApiService.cs:43-48 | The query after the cursor: its members match the criteria and, when `sinceId > 0`, have `Id > sinceId`. It stays sorted and free of duplicates. |
| OrderApi.GetOrders | Nop.Plugin.Api/Services/OrderApiService.cs:36-51 | Every returned order is non-deleted and matches the criteria. With `sinceId > 0` every id exceeds `sinceId`. The result holds at most `limit` orders, has no duplicates, and is sorted. It is exactly the page of the cursored query at index `page - 1` with size `limit`. |
| OrderApi.CursorKeepsOrder | Nop.Plugin.Api/Services/OrderApiService.cs:45-48 | The cursor keeps a sorted, duplicate-free query sorted and duplicate-free. |
| OrderApi.PageKeepsOrder | Nop.Plugin.Api/Services/OrderApiService.cs:50 | A page of a sorted, duplicate-free query is sorted and duplicate-free. |
| OrderApi.NoDuplicatesSubsequence | Nop.Plugin.Api/Services/OrderApiService.cs:45-50 | A subsequence of a duplicate-free sequence sorted by id is again duplicate-free and sorted by id, and all of its members come from the sequence. |
| OrderApi.GetOrdersCursorNoOp | Nop.Plugin.Api/Services/OrderApiService.cs:45 | With `sinceId <= 0` the cursor is a no-op: the result is the plain page of the query. |
| OrderApi.GetOrdersCount | Nop.Plugin.Api/Services/OrderApiService.cs:59-69 | The count is the number of distinct non-deleted orders matching the seven criteria, with no id filter, because `ids` is never passed. |
| OrderApi.GetOrdersCountIsQueryLength | Nop.Plugin.Api/Services/OrderApiService.cs:63-69 | The count equals the length of the query without ids, whatever ids the criteria name. |
| OrderApi.GetOrdersCountIgnoresIds | Nop.Plugin.Api/Services/OrderApiService.cs:59-69 | For any criteria, the count is at least the length of the query that keeps the id set. |
| OrderApi.GetOrdersCountIgnoresIdsExample | Nop.Plugin.Api/Services/OrderApiService.cs:63-69 | Take two live orders with different ids and an id set naming one of them. The query then holds one order, while the count is two. |
| OrderApi.GetOrderById | Nop.Plugin.Api/Services/OrderApiService.cs:53-57 | A negative id gives null. Otherwise the result is a non-deleted table order with that id, or null iff there is none. |
| OrderApi.GetOrderByIdFinds | Nop.Plugin.Api/Services/OrderApiService.cs:56 | With unique ids, every non-deleted order with a non-negative id is found by its id. |
| OrderApi.ToApiList | Nop.Plugin.Api/Services/OrderApiService.cs:188-189 | The page length is a full page, the remainder, or nothing, and never more than `pageSize`. Element `k` of the page is element `PageStart + k` of the query, so page 0 is a prefix of the query. All elements come from the query, and page 0 of a query no longer than the page size is the whole query. |
| OrderApi.OrdersForCustomerQuery | Nop.Plugin.Api/Services/OrderApiService.cs:28-32 | An order is kept iff it is in the table, belongs to the customer and is not deleted, and it appears exactly as often as in the table. The result is sorted by id. There is no `Distinct`. |
| OrderApi.GetOrdersByCustomerId | Nop.Plugin.Api/Services/OrderApiService.cs:26-34 | Exactly the first `MaxLimit` orders of the customer's query, or all of them if fewer. So there are only the customer's non-deleted orders, sorted by id, at most `MaxLimit` of them. When the table fits on one page, it is exactly those orders. |
| OrderApi.OrdersForProductQuery | Nop.Plugin.Api/Services/OrderApiService.cs:92-100 | An order is kept iff it is in the table, is not deleted, passes the date, status and store filters, and has an order item with the product. Each such order appears once, in id order. |
| OrderApi.GetOrdersForProductId | Nop.Plugin.Api/Services/OrderApiService.cs:88-101 | Exactly the first `MaxLimit` orders of the product query, or all of them if fewer. So there are matching non-deleted orders only, without duplicates, sorted by id, and the whole query when it fits on that page. |
| OrderApi.OrdersForCategoryQuery | Nop.Plugin.Api/Services/OrderApiService.cs:106-113 | An order is kept iff it is in the table, passes the filters, and one of its items' products is in the category. Deleted orders are not excluded. Each order appears once, in id order. |
| OrderApi.GetOrdersForCategoryId | Nop.Plugin.Api/Services/OrderApiService.cs:103-114 | Exactly the first `MaxLimit` orders of the category query, or all of them if fewer. So there are matching orders, deleted ones included, without duplicates, sorted by id, and the whole query when it fits on that page. |
| OrderApi.CategoryQueryKeepsDeleted | Nop.Plugin.Api/Services/OrderApiService.cs:106-111 | A deleted order that passes the category filters is in the category result, and never in the product result. |
| Shipping.NewShipment | Nop.Plugin.Api/Controllers/ShipmentsController.cs:159-163 | The shipment the create action starts from: the route's order id, `CreatedOnUtc = now`, id 0, and every other property at its default. |
| Shipping.FindById | Nop.Plugin.Api/Services/ShipmentApiService.cs:17 | The store lookup: `None` iff no stored shipment has the id; otherwise a stored shipment with that id. |
| Shipping.ReplaceById | Nop.Plugin.Api/Services/ShipmentApiService.cs:19 | The store update: the same length, with every shipment of that id replaced and every other shipment untouched. |
| Shipping.FindAfterReplace | Nop.Plugin.Api/Services/ShipmentApiService.cs:19 | After an update, a lookup of the id finds the new value if the id was stored; otherwise the update changes nothing. |
| Shipping.RemoveById | Nop.Plugin.Api/Services/ShipmentApiService.cs:18 | The store delete: exactly the shipments with other ids, in order. |
| Shipping.RemoveKeepsUniqueIds | Nop.Plugin.Api/Services/ShipmentApiService.cs:18 | A delete keeps the stored ids unique. |
| Shipping.ReplaceKeepsIds | Nop.Plugin.Api/Services/ShipmentApiService.cs:19 | An update keeps the id at every position, so the store's ids stay positive, below the next identity, and unique. |
| Shipping.ShipmentService.constructor | Nop.Plugin.Api/Services/ShipmentApiService.cs:9 | An empty store whose next identity is 1. Every store method keeps the stored ids positive, below the next identity, and unique, so "the" shipment with an id is well defined. |
| Shipping.ShipmentService.GetShipmentsByOrderId | Nop.Plugin.Api/Services/ShipmentApiService.cs:13 | Exactly the stored shipments of the order, in store order. |
| Shipping.ShipmentService.GetShipmentById | Nop.Plugin.Api/Services/ShipmentApiService.cs:17 | The stored shipment with that id, or `None` iff there is none. |
| Shipping.ShipmentService.InsertShipment | Nop.Plugin.Api/Services/ShipmentApiService.cs:20-21 | Assigns the next identity, appends the shipment and advances the identity, and a lookup then finds it. Items are unchanged. |
| Shipping.ShipmentService.UpdateShipment | Nop.Plugin.Api/Services/ShipmentApiService.cs:19 | Replaces the stored shipment with the same id. Items and the identity counter are unchanged. |
| Shipping.ShipmentService.DeleteShipment | Nop.Plugin.Api/Services/ShipmentApiService.cs:18 | A null shipment faults and changes nothing. Otherwise it removes that shipment id. |
| Shipping.ShipmentService.InsertShipmentItem | Nop.Plugin.Api/Services/ShipmentApiService.cs:27 | Appends one item. |
| ShipmentApi.ShipmentApiService.constructor | Nop.Plugin.Api/Services/ShipmentApiService.cs:9 | Wires the service to the store. |
| ShipmentApi.ShipmentApiService.GetShipmentsForOrder | Nop.Plugin.Api/Services/ShipmentApiService.cs:11-15 | Exactly the page at index `page - 1` with size `limit` of the order's shipments, in store order. It holds at most `limit` shipments, and all of them belong to the order. |
| ShipmentApi.ShipmentsPageIgnoresSinceId | Nop.Plugin.Api/Services/ShipmentApiService.cs:11-14 | The page is the same for any two `sinceId` values. |
| ShipmentApi.ShipmentApiService.GetShipmentById | Nop.Plugin.Api/Services/ShipmentApiService.cs:17 | Forwards the id to the store lookup. |
| ShipmentApi.ShipmentApiService.DeleteShipment | Nop.Plugin.Api/Services/ShipmentApiService.cs:18 | Forwards its argument, including a null one, to the store delete. |
| ShipmentApi.ShipmentApiService.UpdateShipment | Nop.Plugin.Api/Services/ShipmentApiService.cs:19 | Forwards its argument unchanged to the store update. |
| ShipmentApi.ShipmentApiService.InsertShipment | Nop.Plugin.Api/Services/ShipmentApiService.cs:20-21 | Forwards its argument unchanged to the store insert. |
| ShipmentApi.ShipmentApiService.InsertShipmentItems | Nop.Plugin.Api/Services/ShipmentApiService.cs:23-29 | The loop appends exactly the given items, each once and in list order, and touches nothing else. An empty list changes nothing. |
| ShipmentDtos.ShipmentWireNames | Nop.Plugin.Api/DTOs/Shipments/ShipmentDto.cs:15-54 | The eight declared wire names are pairwise distinct. |
| ShipmentDtos.ItemCollection.constructor | Nop.Plugin.Api/DTOs/Shipments/ShipmentDto.cs:57 | A list holding the given items. |
| ShipmentDtos.ShipmentDto.constructor | Nop.Plugin.Api/DTOs/Shipments/ShipmentDto.cs:10 | A fresh DTO has default properties and a null backing collection. |
| ShipmentDtos.ShipmentDto.ShipmentItems | Nop.Plugin.Api/DTOs/Shipments/ShipmentDto.cs:55-57 | The getter never yields null. It returns the stored collection if there is one; otherwise it creates a fresh empty one and stores it. |
| ShipmentDtos.ShipmentDto.SetShipmentItems | Nop.Plugin.Api/DTOs/Shipments/ShipmentDto.cs:58 | The setter replaces the backing collection wholesale, null included. |
| ShipmentDtos.ReadShipmentItemsTwice | Nop.Plugin.Api/DTOs/Shipments/ShipmentDto.cs:57 | Two consecutive reads return the same collection object, and that object is the one now stored in the backing field. |
| ShipmentDtos.ShipmentItemsLifecycle | Nop.Plugin.Api/DTOs/Shipments/ShipmentDto.cs:57-58 | After setting `v`, a read returns `v` itself. After setting null, the next read returns a new empty collection. |
| ShipmentDtos.WireNameInjective | Nop.Plugin.Api/DTOs/Shipments/ShipmentDto.cs:15-52 | Distinct scalar properties have distinct wire names, so a name present in a payload selects exactly one property. |
| ShipmentDtos.Merge | Nop.Plugin.Api/Controllers/ShipmentsController.cs:164 | `Delta.Merge`: a scalar property whose wire name is in the payload takes the DTO's value, and every other property keeps the target's value. The id and the order id are never changed. |
| ShipmentDtos.FieldsDetermineShipment | Nop.Plugin.Api/DTOs/Shipments/ShipmentDto.cs:15-52 | Two shipments with the same id, order id and named field values are equal. |
| ShipmentDtos.MergeIdempotent | Nop.Plugin.Api/Controllers/ShipmentsController.cs:219 | Merging the same payload twice is the same as merging it once. |
| ShipmentDtos.MergeAbsentIsIdentity | Nop.Plugin.Api/Controllers/ShipmentsController.cs:219 | A payload naming no scalar field leaves the target unchanged. |
| ShipmentsParameters.ShipmentsParametersModel.constructor | Nop.Plugin.Api/Models/ShipmentsParameters/ShipmentsParametersModel.cs:11-17 | Defaults: `Limit == DefaultLimit`, `Page == DefaultPageValue`, `SinceId == 0` (no cursor), and `Fields == ""`. |
| Controllers.ToShipmentItems | Nop.Plugin.Api/Controllers/ShipmentsController.cs:167-173 | One item per DTO item, in order. Each copies `OrderItemId`, `Quantity` and `WarehouseId` and carries the new shipment's id. |
| Controllers.ShipmentsController.constructor | Nop.Plugin.Api/Controllers/ShipmentsController.cs:50 | Wires the controller to the order table and the shipment service. |
| Controllers.ShipmentsController.GetOrderShipments | Nop.Plugin.Api/Controllers/ShipmentsController.cs:59-92 | A limit outside `[MinLimit, MaxLimit]` gives BadRequest "limit", before any other check. Then a page below `DefaultPageValue` gives BadRequest "page". Then a missing order gives NotFound "order". Otherwise the response is the service's page with the requested fields: at most `limit` stored shipments, all of that order. |
| Controllers.ShipmentsController.GetShipmentByIdForOrder | Nop.Plugin.Api/Controllers/ShipmentsController.cs:101-131 | A missing order gives NotFound "order", and a missing shipment gives NotFound "shipment". Otherwise the response is that shipment, whatever order it belongs to. |
| Controllers.ShipmentsController.CreateShipment | Nop.Plugin.Api/Controllers/ShipmentsController.cs:140-182 | An invalid model state gives the errors, and a missing order gives NotFound "order"; neither changes the store or the DTO. Otherwise the new shipment is `OrderId = orderId` and `CreatedOnUtc = now`, with the payload merged on and nothing restored, under the next identity, appended to the store. The items appended are one per DTO item, and the identity counter advances by one. Of the DTO, only the lazy item backing field can change, and the items it reads as stay the same. |
| Controllers.MergeKeepingCreatedOn | Nop.Plugin.Api/Controllers/ShipmentsController.cs:217-221 | The shipment an update stores keeps its id, order id and `CreatedOnUtc`, whatever the payload holds. Every other property is as the merge left it. |
| Controllers.ShipmentsController.UpdateShipment | Nop.Plugin.Api/Controllers/ShipmentsController.cs:191-233 | Errors for an invalid model state come first. Then a missing order gives NotFound "order", and a missing shipment or one of another order gives NotFound "shipment"; none of these changes the store. Otherwise the merged shipment, with its `CreatedOnUtc` restored to its earlier value, replaces the stored one. |
| Controllers.ShipmentsController.StoreUpdate | Nop.Plugin.Api/Controllers/ShipmentsController.cs:217-223 | Merges, restores the creation time, and replaces the stored shipment; a lookup of its id then finds the result. Items and the identity counter are unchanged. |
| Controllers.ShipmentsController.DeleteShipmentById | Nop.Plugin.Api/Controllers/ShipmentsController.cs:242-255 | A missing order gives NotFound "order". A missing shipment reaches the store delete unguarded and ends unhandled. Otherwise the shipment is removed, whatever order it belongs to, and the body is `{}`. |
| Controllers.GetOrderShipmentsWithDefaults | Nop.Plugin.Api/Models/ShipmentsParameters/ShipmentsParametersModel.cs:13-14 | With `MinLimit <= DefaultLimit <= MaxLimit`, a request with default parameters passes both parameter checks. It gives NotFound "order" iff the order is missing. |

## Left out

- The async/`Task`/`SelectAwait` plumbing, routing, authorization and response-type attributes, and HTTP status objects: framework glue. A response is the `Controllers.Response` datatype.
- `JsonFieldsSerializer`, `DTOHelper.PrepareShipmentDTOAsync` and the AutoMapper `ToDto` mappings: a response carries the shipments and the field selection that would be serialized, not the JSON text.
- The source of `ApiList<T>` is not among the modelled files. It is modelled as LINQ `Skip(pageIndex * pageSize).Take(pageSize)`.
- 32-bit arithmetic is not modelled. Integers are unbounded, so the wrap-around of `page - 1` at `int.MinValue` and of the `pageIndex * pageSize` product is left out.
- The sources of `Delta<T>` and `JsonModelBinder` are not among the modelled files. A payload is a DTO plus the set of wire names it contained. The merge is a presence-guarded copy of the seven scalar properties, and the `id` of the base DTO is not merged, because the source of `BaseDto` is not among the modelled files, so `id` is not one of the modelled wire names. The binder's `ModelState` validation is a boolean parameter.
- The source of `IShipmentService` is not among the modelled files. It is modelled as sequences of shipments and items with an identity counter. It covers the lookup, insert, update and delete behaviour the plugin relies on. Deleting a null shipment is modelled as a fault of the store.
- Shipment-item identities, cascade deletion of a shipment's items, and database transactions: store internals.
- `Controllers.ShipmentsController.CreateShipment` and `UpdateShipment`: the in-place mutation of the `Shipment` object returned by the lookup (ShipmentsController.cs:164, 219-221) is modelled as a value update. Aliasing between the object returned by a lookup and the stored row is not captured.
- `Controllers.ShipmentsController.UpdateShipment`: the response is the updated shipment, not the DTO produced by `ToDto`.
- `CustomerActivityService` activity logging and `LocalizationService` lookups: I/O with no effect on results.
- `DateTime.UtcNow` is a parameter `now`. `ToUniversalTime()` conversion is not modelled: timestamps are opaque integers.
- The `decimal` weight is an integer; no behaviour depends on it. Null strings are `""`.
- `OrderApi.ProductRows`, `OrderApi.JoinProduct`, `OrderApi.WhereHasProductId`, `OrderApi.CategoryRows`, `OrderApi.JoinCategory` and `OrderApi.WhereHasCategoryId`: the joins produce one row per matching item or item-category pair. Their contracts state only membership, because the rows are then merged by `Distinct`.
- `OrderItem`, `ProductCategory` and `Order` carry only the fields the queries read.
- `ShipmentsRootObject` and `ShipmentItemsRootObject` are response envelopes for the serializer and are not modelled. `ShipmentItemDto` appears only through its item fields.
