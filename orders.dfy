/**
 * The order records the query pipeline reads (nopCommerce's `Order`,
 * `OrderItem` and `ProductCategory`), reduced to the columns the filters use.
 * Status enums are their integer ids; timestamps are opaque integers (UTC).
 */
module Orders {
  import opened Sequences

  datatype Order = Order(
    id: int,
    customerId: int,
    storeId: int,
    orderStatusId: int,
    paymentStatusId: int,
    shippingStatusId: int,
    createdOnUtc: int,
    deleted: bool)

  /** A line of an order: which product it sells. */
  datatype OrderItem = OrderItem(orderId: int, productId: int)

  /** A product's membership in a category. */
  datatype ProductCategory = ProductCategory(productId: int, categoryId: int)

  predicate SortedById(s: seq<Order>) {
    forall i, j :: 0 <= i < j < |s| ==> s[i].id <= s[j].id
  }

  /** The `Id` primary key: two orders of the table with the same id are the same order. */
  ghost predicate UniqueIds(table: seq<Order>) {
    forall o1, o2 :: o1 in table && o2 in table && o1.id == o2.id ==> o1 == o2
  }

  /** Inserts `o` before the first element whose id is not smaller. */
  function InsertById(o: Order, s: seq<Order>): (r: seq<Order>)
    requires SortedById(s)
    ensures SortedById(r)
    ensures multiset(r) == multiset(s) + multiset{o}
  {
    if s == [] then [o]
    else if o.id <= s[0].id then [o] + s
    else
      var rest := InsertById(o, s[1..]);
      assert s == [s[0]] + s[1..];
      forall k | 0 <= k < |rest| ensures s[0].id <= rest[k].id {
        assert rest[k] in multiset(rest);
        if rest[k] != o {
          assert rest[k] in multiset(s[1..]);
          assert rest[k] in s[1..];
        }
      }
      [s[0]] + rest
  }

  /** LINQ's `OrderBy(order => order.Id)`: a permutation of `s` in ascending id order. */
  function SortById(s: seq<Order>): (r: seq<Order>)
    ensures SortedById(r)
    ensures multiset(r) == multiset(s)
  {
    if s == [] then []
    else
      assert s == [s[0]] + s[1..];
      InsertById(s[0], SortById(s[1..]))
  }

  /** `Distinct().OrderBy(order => order.Id)`: each order of `q` once, ascending by id. */
  function DistinctOrderById(q: seq<Order>): (r: seq<Order>)
    ensures forall o :: o in r <==> o in q
    ensures NoDuplicates(r)
    ensures SortedById(r)
    ensures |r| == |set o | o in q|
  {
    var d := Distinct(q);
    var r := SortById(d);
    DistinctLength(q);
    assert |r| == |multiset(r)| == |multiset(d)| == |d|;
    assert forall o :: o in r <==> o in multiset(d);
    assert forall o :: multiset(d)[o] <= 1 by {
      forall o ensures multiset(d)[o] <= 1 {
        CountAtMostOne(d, o);
      }
    }
    NoDuplicatesByCount(r);
    r
  }

  /** In a sequence without duplicates, an element occurs at most once. */
  lemma {:induction false} CountAtMostOne<T>(s: seq<T>, x: T)
    requires NoDuplicates(s)
    ensures multiset(s)[x] <= 1
  {
    if s != [] {
      assert s == [s[0]] + s[1..];
      assert NoDuplicates(s[1..]) by {
        forall i, j | 0 <= i < j < |s[1..]| ensures s[1..][i] != s[1..][j] {
          assert s[1..][i] == s[i + 1] && s[1..][j] == s[j + 1];
        }
      }
      CountAtMostOne(s[1..], x);
      if s[0] == x {
        assert forall k :: 0 <= k < |s[1..]| ==> s[1..][k] != x by {
          forall k | 0 <= k < |s[1..]| ensures s[1..][k] != x {
            assert s[1..][k] == s[k + 1];
          }
        }
        assert x !in s[1..];
      }
    }
  }

  /** With unique ids, an id-ordered sequence of distinct table orders is strictly ascending. */
  lemma StrictlyAscending(table: seq<Order>, r: seq<Order>)
    requires UniqueIds(table)
    requires forall o :: o in r ==> o in table
    requires NoDuplicates(r) && SortedById(r)
    ensures forall i, j :: 0 <= i < j < |r| ==> r[i].id < r[j].id
  {
    forall i, j | 0 <= i < j < |r| ensures r[i].id < r[j].id {
      assert r[i] in table && r[j] in table;
    }
  }
}
