/**
 * `OrderApiService` and its `OrderServiceExtensions`: null-tolerant filter
 * combinators over an order query, the two join filters, and the queries
 * built from them. A query is the sequence of orders it yields; the order
 * table and the item and category tables are parameters.
 */
module OrderApi {
  import opened Wrappers
  import opened Sequences
  import opened Paging
  import opened Orders
  import Configurations

  // ----- What each criterion admits (a missing criterion admits every order) -----

  predicate OrderStatusOk(status: Option<int>, o: Order) { status.None? || o.orderStatusId == status.value }
  predicate ShippingStatusOk(status: Option<int>, o: Order) { status.None? || o.shippingStatusId == status.value }
  predicate PaymentStatusOk(status: Option<int>, o: Order) { status.None? || o.paymentStatusId == status.value }
  /** A lower creation bound is strict. */
  predicate CreatedAfterOk(createdAtMin: Option<int>, o: Order) { createdAtMin.None? || o.createdOnUtc > createdAtMin.value }
  /** An upper creation bound is strict. */
  predicate CreatedBeforeOk(createdAtMax: Option<int>, o: Order) { createdAtMax.None? || o.createdOnUtc < createdAtMax.value }
  predicate StoreIdOk(storeId: Option<int>, o: Order) { storeId.None? || o.storeId == storeId.value }
  predicate CustomerIdOk(customerId: Option<int>, o: Order) { customerId.None? || o.customerId == customerId.value }
  predicate OrderIdInOk(ids: Option<set<int>>, o: Order) { ids.None? || o.id in ids.value }

  /** Some line of order `orderId` sells product `productId`. */
  predicate HasProductItem(items: seq<OrderItem>, orderId: int, productId: int) {
    exists oi :: oi in items && oi.orderId == orderId && oi.productId == productId
  }

  /** Some line of order `orderId` sells a product that is in category `categoryId`. */
  predicate HasCategoryItem(items: seq<OrderItem>, categories: seq<ProductCategory>, orderId: int, categoryId: int) {
    exists oi, pc :: oi in items && pc in categories && oi.orderId == orderId
      && pc.productId == oi.productId && pc.categoryId == categoryId
  }

  // ----- The combinators: identity on a missing criterion, a Where otherwise -----

  function WhereNotDeleted(q: seq<Order>): (r: seq<Order>)
    ensures forall o :: o in r <==> o in q && !o.deleted
    ensures KeepsExactly(r, q, (o: Order) => !o.deleted)
  {
    Filter(q, (o: Order) => !o.deleted)
  }

  function WhereOrderStatus(q: seq<Order>, status: Option<int>): (r: seq<Order>)
    ensures status.None? ==> r == q
    ensures forall o :: o in r <==> o in q && OrderStatusOk(status, o)
    ensures status.Some? ==> KeepsExactly(r, q, (o: Order) => o.orderStatusId == status.value)
  {
    match status
    case None => q
    case Some(s) => Filter(q, (o: Order) => o.orderStatusId == s)
  }

  function WhereShippingStatus(q: seq<Order>, status: Option<int>): (r: seq<Order>)
    ensures status.None? ==> r == q
    ensures forall o :: o in r <==> o in q && ShippingStatusOk(status, o)
    ensures status.Some? ==> KeepsExactly(r, q, (o: Order) => o.shippingStatusId == status.value)
  {
    match status
    case None => q
    case Some(s) => Filter(q, (o: Order) => o.shippingStatusId == s)
  }

  function WherePaymentStatus(q: seq<Order>, status: Option<int>): (r: seq<Order>)
    ensures status.None? ==> r == q
    ensures forall o :: o in r <==> o in q && PaymentStatusOk(status, o)
    ensures status.Some? ==> KeepsExactly(r, q, (o: Order) => o.paymentStatusId == status.value)
  {
    match status
    case None => q
    case Some(s) => Filter(q, (o: Order) => o.paymentStatusId == s)
  }

  function WhereCreatedAtMin(q: seq<Order>, createdAtMin: Option<int>): (r: seq<Order>)
    ensures createdAtMin.None? ==> r == q
    ensures forall o :: o in r <==> o in q && CreatedAfterOk(createdAtMin, o)
    ensures createdAtMin.Some? ==> KeepsExactly(r, q, (o: Order) => o.createdOnUtc > createdAtMin.value)
  {
    match createdAtMin
    case None => q
    case Some(t) => Filter(q, (o: Order) => o.createdOnUtc > t)
  }

  function WhereCreatedAtMax(q: seq<Order>, createdAtMax: Option<int>): (r: seq<Order>)
    ensures createdAtMax.None? ==> r == q
    ensures forall o :: o in r <==> o in q && CreatedBeforeOk(createdAtMax, o)
    ensures createdAtMax.Some? ==> KeepsExactly(r, q, (o: Order) => o.createdOnUtc < createdAtMax.value)
  {
    match createdAtMax
    case None => q
    case Some(t) => Filter(q, (o: Order) => o.createdOnUtc < t)
  }

  function WhereStoreId(q: seq<Order>, storeId: Option<int>): (r: seq<Order>)
    ensures storeId.None? ==> r == q
    ensures forall o :: o in r <==> o in q && StoreIdOk(storeId, o)
    ensures storeId.Some? ==> KeepsExactly(r, q, (o: Order) => o.storeId == storeId.value)
  {
    match storeId
    case None => q
    case Some(s) => Filter(q, (o: Order) => o.storeId == s)
  }

  function WhereCustomerId(q: seq<Order>, customerId: Option<int>): (r: seq<Order>)
    ensures customerId.None? ==> r == q
    ensures forall o :: o in r <==> o in q && CustomerIdOk(customerId, o)
    ensures customerId.Some? ==> KeepsExactly(r, q, (o: Order) => o.customerId == customerId.value)
  {
    match customerId
    case None => q
    case Some(c) => Filter(q, (o: Order) => o.customerId == c)
  }

  function WhereOrderIdIn(q: seq<Order>, ids: Option<set<int>>): (r: seq<Order>)
    ensures ids.None? ==> r == q
    ensures forall o :: o in r <==> o in q && OrderIdInOk(ids, o)
    ensures ids.Some? ==> KeepsExactly(r, q, (o: Order) => o.id in ids.value)
  {
    match ids
    case None => q
    case Some(s) => Filter(q, (o: Order) => o.id in s)
  }

  /** The cursor of `GetOrders`: only orders after `sinceId` when it is positive, otherwise no-op. */
  function WhereIdAfter(q: seq<Order>, sinceId: int): (r: seq<Order>)
    ensures sinceId <= 0 ==> r == q
    ensures forall o :: o in r <==> o in q && (sinceId > 0 ==> o.id > sinceId)
    ensures sinceId > 0 ==> KeepsExactly(r, q, (o: Order) => o.id > sinceId)
  {
    if sinceId > 0 then Filter(q, (o: Order) => o.id > sinceId) else q
  }

  // ----- The join combinators: one result row per matching join row -----

  /** `n` copies of `x`. */
  function Repeat(x: Order, n: nat): (r: seq<Order>)
    ensures |r| == n
    ensures forall y :: y in r <==> n > 0 && y == x
  {
    if n == 0 then [] else [x] + Repeat(x, n - 1)
  }

  /** The join rows of order `o` against the items selling `productId`. */
  function ProductRows(o: Order, items: seq<OrderItem>, productId: int): (r: seq<Order>)
    ensures forall y :: y in r <==> y == o && HasProductItem(items, o.id, productId)
  {
    var matching := Filter(items, (oi: OrderItem) => oi.orderId == o.id && oi.productId == productId);
    assert HasProductItem(items, o.id, productId) ==> |matching| > 0 by {
      if HasProductItem(items, o.id, productId) {
        var oi :| oi in items && oi.orderId == o.id && oi.productId == productId;
        assert oi in matching;
      }
    }
    Repeat(o, |matching|)
  }

  /** `Where(HasProductId)`: `o join orderItem on o.Id equals orderItem.OrderId where orderItem.ProductId == productId`. */
  function WhereHasProductId(q: seq<Order>, productId: Option<int>, items: seq<OrderItem>): (r: seq<Order>)
    ensures productId.None? ==> r == q
    ensures forall o :: o in r <==> o in q && (productId.Some? ==> HasProductItem(items, o.id, productId.value))
  {
    match productId
    case None => q
    case Some(p) => JoinProduct(q, items, p)
  }

  function JoinProduct(q: seq<Order>, items: seq<OrderItem>, productId: int): (r: seq<Order>)
    ensures forall o :: o in r <==> o in q && HasProductItem(items, o.id, productId)
  {
    if q == [] then []
    else
      assert q == [q[0]] + q[1..];
      ProductRows(q[0], items, productId) + JoinProduct(q[1..], items, productId)
  }

  /** The join rows of order `o`: one per (item of `o`, category row of that item's product in `categoryId`). */
  function CategoryRows(o: Order, items: seq<OrderItem>, categories: seq<ProductCategory>, categoryId: int): (r: seq<Order>)
    ensures forall y :: y in r <==> y == o && HasCategoryItem(items, categories, o.id, categoryId)
  {
    if items == [] then []
    else
      var oi := items[0];
      assert items == [oi] + items[1..];
      var here := if oi.orderId == o.id
        then Filter(categories, (pc: ProductCategory) => pc.productId == oi.productId && pc.categoryId == categoryId)
        else [];
      var rest := CategoryRows(o, items[1..], categories, categoryId);
      assert HasCategoryItem(items, categories, o.id, categoryId) ==> |here| > 0 || HasCategoryItem(items[1..], categories, o.id, categoryId) by {
        if HasCategoryItem(items, categories, o.id, categoryId) {
          var oi', pc :| oi' in items && pc in categories && oi'.orderId == o.id
            && pc.productId == oi'.productId && pc.categoryId == categoryId;
          if oi' == oi { assert pc in here; } else { assert oi' in items[1..]; }
        }
      }
      assert |here| > 0 ==> HasCategoryItem(items, categories, o.id, categoryId) by {
        if |here| > 0 { assert here[0] in here; assert oi in items; }
      }
      Repeat(o, |here|) + rest
  }

  /** `Where(HasCategoryId)`: the join through order items and product categories. */
  function WhereHasCategoryId(q: seq<Order>, categoryId: Option<int>, items: seq<OrderItem>, categories: seq<ProductCategory>): (r: seq<Order>)
    ensures categoryId.None? ==> r == q
    ensures forall o :: o in r <==> o in q && (categoryId.Some? ==> HasCategoryItem(items, categories, o.id, categoryId.value))
  {
    match categoryId
    case None => q
    case Some(c) => JoinCategory(q, items, categories, c)
  }

  function JoinCategory(q: seq<Order>, items: seq<OrderItem>, categories: seq<ProductCategory>, categoryId: int): (r: seq<Order>)
    ensures forall o :: o in r <==> o in q && HasCategoryItem(items, categories, o.id, categoryId)
  {
    if q == [] then []
    else
      assert q == [q[0]] + q[1..];
      CategoryRows(q[0], items, categories, categoryId) + JoinCategory(q[1..], items, categories, categoryId)
  }

  // ----- The queries -----

  /** The criteria of `GetOrdersQuery`; `None` is a criterion the caller left null. */
  datatype OrderCriteria = OrderCriteria(
    createdAtMin: Option<int>, createdAtMax: Option<int>,
    status: Option<int>, paymentStatus: Option<int>, shippingStatus: Option<int>,
    ids: Option<set<int>>, customerId: Option<int>, storeId: Option<int>)

  /** An order passes every criterion of `c` (the reference meaning of the filter chain). */
  predicate Matches(c: OrderCriteria, o: Order) {
    && CustomerIdOk(c.customerId, o)
    && OrderIdInOk(c.ids, o)
    && PaymentStatusOk(c.paymentStatus, o)
    && ShippingStatusOk(c.shippingStatus, o)
    && CreatedAfterOk(c.createdAtMin, o)
    && CreatedBeforeOk(c.createdAtMax, o)
    && OrderStatusOk(c.status, o)
    && StoreIdOk(c.storeId, o)
  }

  /** The distinct non-deleted orders of the table passing every criterion. */
  function MatchingOrders(table: seq<Order>, c: OrderCriteria): set<Order> {
    set o | o in table && !o.deleted && Matches(c, o)
  }

  /** The `Where` chain of `GetOrdersQuery`, in the source's order, before `Distinct` and `OrderBy`. */
  function FilterChain(table: seq<Order>, c: OrderCriteria): (q: seq<Order>)
    ensures forall o :: o in q <==> o in table && !o.deleted && Matches(c, o)
  {
    var q1 := WhereNotDeleted(table);
    var q2 := WhereCustomerId(q1, c.customerId);
    var q3 := WhereOrderIdIn(q2, c.ids);
    var q4 := WherePaymentStatus(q3, c.paymentStatus);
    var q5 := WhereShippingStatus(q4, c.shippingStatus);
    var q6 := WhereCreatedAtMin(q5, c.createdAtMin);
    var q7 := WhereCreatedAtMax(q6, c.createdAtMax);
    var q8 := WhereOrderStatus(q7, c.status);
    WhereStoreId(q8, c.storeId)
  }

  /**
   * `GetOrdersQuery`: the non-deleted orders passing every criterion, each
   * once, in ascending id order.
   */
  function GetOrdersQuery(table: seq<Order>, c: OrderCriteria): (r: seq<Order>)
    ensures forall o :: o in r <==> o in table && !o.deleted && Matches(c, o)
    ensures NoDuplicates(r)
    ensures SortedById(r)
    ensures |r| == |MatchingOrders(table, c)|
  {
    var q := FilterChain(table, c);
    assert (set o | o in q) == MatchingOrders(table, c);
    DistinctOrderById(q)
  }

  /** With unique order ids, `GetOrdersQuery` is strictly ascending by id, whatever the criteria. */
  lemma GetOrdersQueryStrictlyAscending(table: seq<Order>, c: OrderCriteria)
    requires UniqueIds(table)
    ensures forall i, j :: 0 <= i < j < |GetOrdersQuery(table, c)| ==>
              GetOrdersQuery(table, c)[i].id < GetOrdersQuery(table, c)[j].id
  {
    StrictlyAscending(table, GetOrdersQuery(table, c));
  }

  /** `GetOrdersQuery` followed by the `sinceId` cursor. */
  function CursorQuery(table: seq<Order>, c: OrderCriteria, sinceId: int): (q: seq<Order>)
    ensures forall o :: o in q <==> o in table && !o.deleted && Matches(c, o) && (sinceId > 0 ==> o.id > sinceId)
    ensures NoDuplicates(q) && SortedById(q)
  {
    CursorKeepsOrder(GetOrdersQuery(table, c), sinceId);
    WhereIdAfter(GetOrdersQuery(table, c), sinceId)
  }

  /**
   * `GetOrders`: the cursor `sinceId` applied to `GetOrdersQuery`, then page
   * `page - 1` of size `limit`.
   */
  function GetOrders(table: seq<Order>, c: OrderCriteria, limit: int, page: int, sinceId: int): (r: seq<Order>)
    ensures forall o :: o in r ==> o in table && !o.deleted && Matches(c, o)
    ensures sinceId > 0 ==> forall o :: o in r ==> o.id > sinceId
    ensures |r| <= PageCapacity(limit)
    ensures NoDuplicates(r) && SortedById(r)
    ensures |r| == PageLength(|CursorQuery(table, c, sinceId)|, page - 1, limit)
    ensures forall k :: 0 <= k < |r| ==>
              PageStart(page - 1, limit) + k < |CursorQuery(table, c, sinceId)| &&
              r[k] == CursorQuery(table, c, sinceId)[PageStart(page - 1, limit) + k]
  {
    var q := CursorQuery(table, c, sinceId);
    PageKeepsOrder(q, page - 1, limit);
    ApiPage(q, page - 1, limit)
  }

  /** The cursor keeps an id-ordered, duplicate-free query id-ordered and duplicate-free. */
  lemma CursorKeepsOrder(q: seq<Order>, sinceId: int)
    requires NoDuplicates(q) && SortedById(q)
    ensures NoDuplicates(WhereIdAfter(q, sinceId)) && SortedById(WhereIdAfter(q, sinceId))
  {
    if sinceId > 0 { NoDuplicatesSubsequence(WhereIdAfter(q, sinceId), q); }
  }

  /** A page of an id-ordered, duplicate-free query is id-ordered, duplicate-free and drawn from it. */
  lemma PageKeepsOrder(q: seq<Order>, pageIndex: int, pageSize: int)
    requires SortedById(q)
    ensures SortedById(ApiPage(q, pageIndex, pageSize))
    ensures NoDuplicates(q) ==> NoDuplicates(ApiPage(q, pageIndex, pageSize))
    ensures |ApiPage(q, pageIndex, pageSize)| <= PageCapacity(pageSize)
    ensures forall o :: o in ApiPage(q, pageIndex, pageSize) ==> o in q
  {
    PageBounds(q, pageIndex, pageSize);
    var r, start := ApiPage(q, pageIndex, pageSize), PageStart(pageIndex, pageSize);
    forall i, j | 0 <= i < j < |r|
      ensures r[i].id <= r[j].id && (NoDuplicates(q) ==> r[i] != r[j])
    {
      assert r[i] == q[start + i] && r[j] == q[start + j];
    }
  }

  /** Filtering keeps an id-ordered, duplicate-free query id-ordered and duplicate-free. */
  lemma {:induction false} NoDuplicatesSubsequence(r: seq<Order>, s: seq<Order>)
    requires Subsequence(r, s) && NoDuplicates(s) && SortedById(s)
    ensures NoDuplicates(r) && SortedById(r)
    ensures forall x :: x in r ==> x in s
    decreases |s|
  {
    if r != [] {
      assert s == [s[0]] + s[1..];
      assert NoDuplicates(s[1..]) && SortedById(s[1..]) by {
        forall i, j | 0 <= i < j < |s[1..]|
          ensures s[1..][i] != s[1..][j] && s[1..][i].id <= s[1..][j].id
        {
          assert s[1..][i] == s[i + 1] && s[1..][j] == s[j + 1];
        }
      }
      if r[0] == s[0] && Subsequence(r[1..], s[1..]) {
        NoDuplicatesSubsequence(r[1..], s[1..]);
        assert r == [r[0]] + r[1..];
        forall k | 0 <= k < |r[1..]| ensures r[1..][k] != r[0] && r[0].id <= r[1..][k].id {
          assert r[1..][k] in s[1..];
          var m :| 0 <= m < |s[1..]| && s[1..][m] == r[1..][k];
          assert s[m + 1] == r[1..][k];
        }
        forall i, j | 0 <= i < j < |r| ensures r[i] != r[j] && r[i].id <= r[j].id {
          if i > 0 { assert r[i] == r[1..][i - 1]; }
          assert r[j] == r[1..][j - 1];
        }
      } else {
        NoDuplicatesSubsequence(r, s[1..]);
      }
    }
  }

  /** With a non-positive cursor, `GetOrders` is just page `page - 1` of `GetOrdersQuery`. */
  lemma GetOrdersCursorNoOp(table: seq<Order>, c: OrderCriteria, limit: int, page: int, sinceId: int)
    requires sinceId <= 0
    ensures GetOrders(table, c, limit, page, sinceId) == ApiPage(GetOrdersQuery(table, c), page - 1, limit)
  {
    assert CursorQuery(table, c, sinceId) == GetOrdersQuery(table, c);
  }

  /**
   * `GetOrdersCount`: the number of distinct non-deleted orders passing the
   * given criteria. It takes no id set, so an id filter never restricts it.
   */
  function GetOrdersCount(table: seq<Order>, createdAtMin: Option<int>, createdAtMax: Option<int>,
                          status: Option<int>, paymentStatus: Option<int>, shippingStatus: Option<int>,
                          customerId: Option<int>, storeId: Option<int>): (n: nat)
    ensures n == |MatchingOrders(table, OrderCriteria(createdAtMin, createdAtMax, status, paymentStatus,
                                                      shippingStatus, None, customerId, storeId))|
  {
    |GetOrdersQuery(table, OrderCriteria(createdAtMin, createdAtMax, status, paymentStatus, shippingStatus, None, customerId, storeId))|
  }

  /** The count is the length of the query with the same criteria and no id set. */
  lemma GetOrdersCountIsQueryLength(table: seq<Order>, c: OrderCriteria)
    ensures GetOrdersCount(table, c.createdAtMin, c.createdAtMax, c.status, c.paymentStatus,
                           c.shippingStatus, c.customerId, c.storeId)
         == |GetOrdersQuery(table, c.(ids := None))|
  {
  }

  /** The count drops the id set, so it is never below the length of the query that keeps it. */
  lemma GetOrdersCountIgnoresIds(table: seq<Order>, c: OrderCriteria)
    ensures |GetOrdersQuery(table, c)|
         <= GetOrdersCount(table, c.createdAtMin, c.createdAtMax, c.status, c.paymentStatus,
                           c.shippingStatus, c.customerId, c.storeId)
  {
    var withIds, withoutIds := MatchingOrders(table, c), MatchingOrders(table, c.(ids := None));
    assert withIds <= withoutIds;
    assert withoutIds == withIds + (withoutIds - withIds);
    assert c.(ids := None) == OrderCriteria(c.createdAtMin, c.createdAtMax, c.status, c.paymentStatus,
                                            c.shippingStatus, None, c.customerId, c.storeId);
  }

  /** Two live orders and an id set naming one: the query holds one order, the count says two. */
  lemma GetOrdersCountIgnoresIdsExample(o1: Order, o2: Order)
    requires o1.id != o2.id && !o1.deleted && !o2.deleted
    ensures |GetOrdersQuery([o1, o2], OrderCriteria(None, None, None, None, None, Some({o1.id}), None, None))| == 1
    ensures GetOrdersCount([o1, o2], None, None, None, None, None, None, None) == 2
  {
    var c := OrderCriteria(None, None, None, None, None, Some({o1.id}), None, None);
    assert |MatchingOrders([o1, o2], c)| == 1 by {
      assert MatchingOrders([o1, o2], c) == {o1};
    }
    assert |MatchingOrders([o1, o2], c.(ids := None))| == 2 by {
      assert MatchingOrders([o1, o2], c.(ids := None)) == {o1, o2};
    }
  }

  /** `GetOrderById`: null for a negative id, else the first non-deleted order with that id, if any. */
  function GetOrderById(table: seq<Order>, orderId: int): (r: Option<Order>)
    ensures orderId < 0 ==> r.None?
    ensures r.Some? ==> r.value in table && r.value.id == orderId && !r.value.deleted
    ensures orderId >= 0 && r.None? ==> forall o :: o in table ==> o.id != orderId || o.deleted
  {
    if orderId < 0 then None
    else FirstWhere(table, (o: Order) => o.id == orderId && !o.deleted)
  }

  /** With unique ids, an order is found by its id exactly when it is in the table and not deleted. */
  lemma GetOrderByIdFinds(table: seq<Order>, o: Order)
    requires UniqueIds(table) && o.id >= 0
    ensures GetOrderById(table, o.id) == Some(o) <==> o in table && !o.deleted
  {
  }

  /** `ToApiList(pageIndex, pageSize)`: one page of the query. */
  function ToApiList(q: seq<Order>, pageIndex: int, pageSize: int): (r: seq<Order>)
    ensures |r| == PageLength(|q|, pageIndex, pageSize) && |r| <= PageCapacity(pageSize)
    ensures forall o :: o in r ==> o in q
    ensures forall k :: 0 <= k < |r| ==> r[k] == q[PageStart(pageIndex, pageSize) + k]
    ensures pageIndex == 0 ==> r == q[..PageLength(|q|, 0, pageSize)]
    ensures pageIndex <= 0 && |q| <= pageSize ==> r == q
  {
    PageBounds(q, pageIndex, pageSize);
    FirstPageIsPrefix(q, pageSize);
    ApiPage(q, pageIndex, pageSize)
  }

  /** The query of `GetOrdersByCustomerId`: the customer's non-deleted orders by ascending id. */
  function OrdersForCustomerQuery(table: seq<Order>, customerId: int): (r: seq<Order>)
    ensures forall o :: o in r <==> o in table && o.customerId == customerId && !o.deleted
    ensures forall o :: multiset(r)[o] == if o.customerId == customerId && !o.deleted then multiset(table)[o] else 0
    ensures SortedById(r)
  {
    var q := SortById(Filter(table, (o: Order) => o.customerId == customerId && !o.deleted));
    assert forall o :: o in q <==> o in multiset(q);
    q
  }

  /** `GetOrdersByCustomerId`: the first `MaxLimit` orders of the customer's query. */
  function GetOrdersByCustomerId(table: seq<Order>, customerId: int): (r: seq<Order>)
    ensures forall o :: o in r ==> o in table && o.customerId == customerId && !o.deleted
    ensures SortedById(r)
    ensures |r| <= PageCapacity(Configurations.MaxLimit)
    ensures var q := OrdersForCustomerQuery(table, customerId);
            r == q[..PageLength(|q|, 0, Configurations.MaxLimit)]
    ensures |table| <= Configurations.MaxLimit ==>
              forall o :: o in r <==> o in table && o.customerId == customerId && !o.deleted
  {
    var q := OrdersForCustomerQuery(table, customerId);
    PageKeepsOrder(q, 0, Configurations.MaxLimit);
    ToApiList(q, 0, Configurations.MaxLimit)
  }

  /** The query of `GetOrdersForProductId`, before its page is taken. */
  function OrdersForProductQuery(table: seq<Order>, items: seq<OrderItem>, productId: int,
                                 createdAtMin: Option<int>, createdAtMax: Option<int>,
                                 status: Option<int>, storeId: Option<int>): (r: seq<Order>)
    ensures forall o :: o in r <==> (o in table && !o.deleted
              && CreatedAfterOk(createdAtMin, o) && CreatedBeforeOk(createdAtMax, o)
              && OrderStatusOk(status, o) && StoreIdOk(storeId, o)
              && HasProductItem(items, o.id, productId))
    ensures NoDuplicates(r) && SortedById(r)
  {
    DistinctOrderById(
      WhereHasProductId(
        WhereStoreId(WhereOrderStatus(WhereCreatedAtMax(WhereCreatedAtMin(WhereNotDeleted(table),
          createdAtMin), createdAtMax), status), storeId),
        Some(productId), items))
  }

  /** `GetOrdersForProductId`: the first `MaxLimit` orders of its query. */
  function GetOrdersForProductId(table: seq<Order>, items: seq<OrderItem>, productId: int,
                                 createdAtMin: Option<int>, createdAtMax: Option<int>,
                                 status: Option<int>, storeId: Option<int>): (r: seq<Order>)
    ensures forall o :: o in r ==> (o in table && !o.deleted && HasProductItem(items, o.id, productId)
              && CreatedAfterOk(createdAtMin, o) && CreatedBeforeOk(createdAtMax, o)
              && OrderStatusOk(status, o) && StoreIdOk(storeId, o))
    ensures |r| <= PageCapacity(Configurations.MaxLimit)
    ensures NoDuplicates(r) && SortedById(r)
    ensures var q := OrdersForProductQuery(table, items, productId, createdAtMin, createdAtMax, status, storeId);
            && r == q[..PageLength(|q|, 0, Configurations.MaxLimit)]
            && (|q| <= Configurations.MaxLimit ==> r == q)
  {
    var q := OrdersForProductQuery(table, items, productId, createdAtMin, createdAtMax, status, storeId);
    PageKeepsOrder(q, 0, Configurations.MaxLimit);
    ToApiList(q, 0, Configurations.MaxLimit)
  }

  /** The query of `GetOrdersForCategoryId`. Unlike the product query it does not drop deleted orders. */
  function OrdersForCategoryQuery(table: seq<Order>, items: seq<OrderItem>, categories: seq<ProductCategory>,
                                  categoryId: int, createdAtMin: Option<int>, createdAtMax: Option<int>,
                                  status: Option<int>, storeId: Option<int>): (r: seq<Order>)
    ensures forall o :: o in r <==> (o in table
              && CreatedAfterOk(createdAtMin, o) && CreatedBeforeOk(createdAtMax, o)
              && OrderStatusOk(status, o) && StoreIdOk(storeId, o)
              && HasCategoryItem(items, categories, o.id, categoryId))
    ensures NoDuplicates(r) && SortedById(r)
  {
    DistinctOrderById(
      WhereHasCategoryId(
        WhereStoreId(WhereOrderStatus(WhereCreatedAtMax(WhereCreatedAtMin(table,
          createdAtMin), createdAtMax), status), storeId),
        Some(categoryId), items, categories))
  }

  /** `GetOrdersForCategoryId`: the first `MaxLimit` orders of its query. */
  function GetOrdersForCategoryId(table: seq<Order>, items: seq<OrderItem>, categories: seq<ProductCategory>,
                                  categoryId: int, createdAtMin: Option<int>, createdAtMax: Option<int>,
                                  status: Option<int>, storeId: Option<int>): (r: seq<Order>)
    ensures forall o :: o in r ==> (o in table && HasCategoryItem(items, categories, o.id, categoryId)
              && CreatedAfterOk(createdAtMin, o) && CreatedBeforeOk(createdAtMax, o)
              && OrderStatusOk(status, o) && StoreIdOk(storeId, o))
    ensures |r| <= PageCapacity(Configurations.MaxLimit)
    ensures NoDuplicates(r) && SortedById(r)
    ensures var q := OrdersForCategoryQuery(table, items, categories, categoryId, createdAtMin, createdAtMax, status, storeId);
            && r == q[..PageLength(|q|, 0, Configurations.MaxLimit)]
            && (|q| <= Configurations.MaxLimit ==> r == q)
  {
    var q := OrdersForCategoryQuery(table, items, categories, categoryId, createdAtMin, createdAtMax, status, storeId);
    PageKeepsOrder(q, 0, Configurations.MaxLimit);
    ToApiList(q, 0, Configurations.MaxLimit)
  }

  /**
   * A deleted order with a line in the category is part of the category
   * query, while no product query ever returns it.
   */
  lemma CategoryQueryKeepsDeleted(table: seq<Order>, items: seq<OrderItem>, categories: seq<ProductCategory>,
                                  o: Order, categoryId: int, productId: int)
    requires o in table && o.deleted && HasCategoryItem(items, categories, o.id, categoryId)
    ensures o in OrdersForCategoryQuery(table, items, categories, categoryId, None, None, None, None)
    ensures o !in GetOrdersForProductId(table, items, productId, None, None, None, None)
  {
  }
}
