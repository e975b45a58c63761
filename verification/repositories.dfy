/**
 The repository functions of the order subsystem: each reads the store or
 returns the store after one committed write. Every write commits on its own,
 so a caller that fails later keeps the writes made before.
 */
module Repositories {
  import opened Wrappers
  import opened Models
  import opened Paging

  /** The user with its roles, if the id resolves. */
  function GetUserWithRoles(s: Store, userId: int): (r: Option<User>)
    ensures r.Some? <==> userId in s.users
    ensures r.Some? ==> r.value == s.users[userId]
  {
    if userId in s.users then Some(s.users[userId]) else None
  }

  /** The set of ids named in a list. */
  function ToSet(ids: seq<int>): set<int>
  {
    set id | id in ids
  }

  /**
   The ids among `ids` that have a stored product and are not in `seen`, once
   each, in order of first mention.
   */
  function FoundIds(products: ProductTable, ids: seq<int>, seen: set<int>): (r: seq<int>)
    ensures forall k :: 0 <= k < |r| ==> r[k] in ids && r[k] in products && r[k] !in seen
    ensures forall id :: id in ids && id in products && id !in seen ==> id in r
    ensures forall j, k :: 0 <= j < k < |r| ==> r[j] != r[k]
    decreases |ids|
  {
    if |ids| == 0 then []
    else
      var rest := FoundIds(products, ids[1..], seen + {ids[0]});
      if ids[0] in products && ids[0] !in seen then [ids[0]] + rest else rest
  }

  /**
   The stored products whose id is in the list (`WHERE id IN ids`), each once;
   an empty list yields no products without a query.
   */
  function GetProductsByIds(s: Store, ids: seq<int>): (r: seq<Product>)
    ensures |ids| == 0 ==> r == []
    ensures forall k :: 0 <= k < |r| ==>
      r[k].id in ids && r[k].id in s.products && s.products[r[k].id] == r[k]
    ensures forall id :: id in ids && id in s.products ==> s.products[id] in r
    ensures forall j, k :: 0 <= j < k < |r| ==> r[j].id != r[k].id
  {
    if |ids| == 0 then []
    else
      var found := FoundIds(s.products, ids, {});
      var r := seq(|found|, i requires 0 <= i < |found| => s.products[found[i]]);
      assert forall id :: id in ids && id in s.products ==> s.products[id] in r by {
        forall id | id in ids && id in s.products
          ensures s.products[id] in r
        {
          var i :| 0 <= i < |found| && found[i] == id;
          assert r[i] == s.products[id];
        }
      }
      r
  }

  /**
   The conditional stock decrement: it succeeds, and commits, exactly when the
   product exists and holds at least `amount`; otherwise nothing changes.
   */
  function UpdateProductStock(s: Store, productId: int, amount: int): (r: (bool, Store))
    ensures r.0 <==> productId in s.products && s.products[productId].stock >= amount
    ensures !r.0 ==> r.1 == s
    ensures r.0 ==> r.1 == s.(products := s.products[productId :=
                                s.products[productId].(stock := s.products[productId].stock - amount)])
    ensures r.0 ==> r.1.products[productId].stock >= 0
  {
    if productId in s.products && s.products[productId].stock >= amount then
      var p := s.products[productId];
      (true, s.(products := s.products[productId := p.(stock := p.stock - amount)]))
    else
      (false, s)
  }

  /** Stores a client order under the next autoincrement id and returns that id. */
  function CreateClientOrder(s: Store, clientId: int, totalPrice: int, status: OrderStatus, now: nat)
    : (r: (int, Store))
    ensures r.0 == s.nextOrderId
    ensures r.1.orders == s.orders + [ClientOrder(r.0, clientId, totalPrice, status, now, now)]
    ensures r.1 == s.(orders := r.1.orders, nextOrderId := s.nextOrderId + 1)
    ensures Valid(s) ==> forall i :: 0 <= i < |s.orders| ==> s.orders[i].id != r.0
  {
    var id := s.nextOrderId;
    (id, s.(orders := s.orders + [NewClientOrder(id, clientId, Some(totalPrice), Some(status), now)],
            nextOrderId := id + 1))
  }

  /**
   Inserts one link row. The insert fails, writing nothing, when a row with the
   same (order id, product id) key exists.
   */
  function AddProductToClientOrder(s: Store, orderId: int, productId: int, amount: int, unitPrice: int)
    : (r: (Result<OrderLine, ()>, Store))
    ensures r.0.Failure? <==> HasLine(s.links, orderId, productId)
    ensures r.0.Failure? ==> r.1 == s
    ensures r.0.Success? ==> r.0.value == OrderLine(orderId, productId, amount, unitPrice)
    ensures r.0.Success? ==> r.1 == s.(links := s.links + [r.0.value])
    ensures LinesKeyed(s.links) ==> LinesKeyed(r.1.links)
  {
    if HasLine(s.links, orderId, productId) then (Failure(()), s)
    else
      var line := NewOrderLine(orderId, productId, Some(amount), unitPrice);
      (Success(line), s.(links := s.links + [line]))
  }

  /** Stores a product under the next autoincrement id and returns that id. */
  function CreateProduct(s: Store, name: string, description: string, price: int, stock: int,
                         supplierId: Option<int>): (r: (int, Store))
    ensures r.0 == s.nextProductId
    ensures r.1 == s.(products := s.products[r.0 := Product(r.0, name, description, price, stock, supplierId)],
                      nextProductId := s.nextProductId + 1)
    ensures Valid(s) ==> r.0 !in s.products
  {
    var id := s.nextProductId;
    (id, s.(products := s.products[id := Product(id, name, description, price, stock, supplierId)],
            nextProductId := id + 1))
  }

  /**
   The product named `name` with the greatest id below `bound` (`ORDER BY id
   DESC`, first row), if any.
   */
  function NewestProductByName(products: ProductTable, name: string, bound: int): (r: Option<Product>)
    ensures r.Some? ==> r.value.id in products && products[r.value.id] == r.value
                        && r.value.name == name && r.value.id < bound
    ensures r.Some? ==> forall k :: k in products && r.value.id < k < bound ==> products[k].name != name
    ensures r.None? <==> forall k :: k in products && 0 <= k < bound ==> products[k].name != name
    decreases bound
  {
    if bound <= 0 then None
    else if bound - 1 in products && products[bound - 1].name == name then Some(products[bound - 1])
    else NewestProductByName(products, name, bound - 1)
  }

  /** Whether the order-id lookup shows `o` to this caller. */
  predicate OwnerVisible(o: ClientOrder, orderId: int, clientId: Option<int>, isAdmin: bool)
  {
    o.id == orderId && (isAdmin || clientId.None? || o.clientId == clientId.value)
  }

  /**
   The first client order with this id; a caller that is not admin and names
   a client only sees that client's orders.
   */
  function GetClientOrderById(s: Store, orderId: int, clientId: Option<int>, isAdmin: bool)
    : (r: Option<ClientOrder>)
    ensures r.Some? ==> r.value in s.orders && r.value.id == orderId
    ensures r.Some? && !isAdmin && clientId.Some? ==> r.value.clientId == clientId.value
    ensures r.None? <==> forall i :: 0 <= i < |s.orders| ==> !OwnerVisible(s.orders[i], orderId, clientId, isAdmin)
  {
    FirstVisible(s.orders, orderId, clientId, isAdmin)
  }

  function FirstVisible(rows: seq<ClientOrder>, orderId: int, clientId: Option<int>, isAdmin: bool)
    : (r: Option<ClientOrder>)
    ensures r.Some? ==> r.value in rows && OwnerVisible(r.value, orderId, clientId, isAdmin)
    ensures r.None? <==> forall i :: 0 <= i < |rows| ==> !OwnerVisible(rows[i], orderId, clientId, isAdmin)
  {
    if |rows| == 0 then None
    else if OwnerVisible(rows[0], orderId, clientId, isAdmin) then Some(rows[0])
    else
      var r := FirstVisible(rows[1..], orderId, clientId, isAdmin);
      assert forall i :: 1 <= i < |rows| ==> rows[i] == rows[1..][i - 1];
      r
  }

  /**
   The link rows of an order (the eagerly loaded `product_links`), in the
   model's insertion order; SQL leaves the order of these rows unspecified.
   */
  function LinesOf(links: seq<OrderLine>, orderId: int): (r: seq<OrderLine>)
    ensures forall k :: 0 <= k < |r| ==> r[k] in links && r[k].orderId == orderId
    ensures forall i :: 0 <= i < |links| && links[i].orderId == orderId ==> links[i] in r
    ensures |r| <= |links|
    ensures |links| == 1 ==> r == if links[0].orderId == orderId then links else []
  {
    if |links| == 0 then []
    else
      var rest := LinesOf(links[1..], orderId);
      assert forall i :: 1 <= i < |links| ==> links[i] == links[1..][i - 1];
      if links[0].orderId == orderId then [links[0]] + rest else rest
  }

  /** The lines of a concatenated table are those of each part in turn: each row once, in the model's insertion order. */
  lemma {:induction false} LinesOfAppend(a: seq<OrderLine>, b: seq<OrderLine>, orderId: int)
    ensures LinesOf(a + b, orderId) == LinesOf(a, orderId) + LinesOf(b, orderId)
    decreases |a|
  {
    if |a| == 0 {
      assert a + b == b;
    } else {
      var ab := a + b;
      assert ab[0] == a[0] && ab[1..] == a[1..] + b;
      LinesOfAppend(a[1..], b, orderId);
      var rest := LinesOf(a[1..], orderId);
      if a[0].orderId == orderId {
        assert LinesOf(ab, orderId) == [a[0]] + LinesOf(ab[1..], orderId);
        assert LinesOf(a, orderId) == [a[0]] + rest;
      } else {
        assert LinesOf(ab, orderId) == LinesOf(ab[1..], orderId);
        assert LinesOf(a, orderId) == rest;
      }
    }
  }

  /**
   The join condition of the custom filter: with no flag, every order passes;
   otherwise the order needs a link whose product row exists, and with the flag
   set that product's current price must be 0.
   */
  predicate JoinedLineMatches(s: Store, o: ClientOrder, isCustomPrice: Option<bool>)
  {
    isCustomPrice.None? ||
    exists i :: 0 <= i < |s.links| && s.links[i].orderId == o.id && s.links[i].productId in s.products
                && (isCustomPrice.value ==> s.products[s.links[i].productId].price == 0)
  }

  /** The plain column filters, shared verbatim by the page and the count query. */
  predicate ColumnFiltersMatch(o: ClientOrder, clientId: Option<int>, status: Option<OrderStatus>)
  {
    (clientId.None? || o.clientId == clientId.value) && (status.None? || o.status == status.value)
  }

  /** The whole predicate of the page query. */
  predicate OrderMatches(s: Store, o: ClientOrder, clientId: Option<int>, status: Option<OrderStatus>,
                         isCustomPrice: Option<bool>)
  {
    ColumnFiltersMatch(o, clientId, status) && JoinedLineMatches(s, o, isCustomPrice)
  }

  /** The rows of `rows` the page query selects, in table order. */
  function FilterOrders(s: Store, rows: seq<ClientOrder>, clientId: Option<int>, status: Option<OrderStatus>,
                        isCustomPrice: Option<bool>): (r: seq<ClientOrder>)
    ensures forall o :: o in r <==> o in rows && OrderMatches(s, o, clientId, status, isCustomPrice)
    ensures OrderIdsIncreasing(rows) ==> OrderIdsIncreasing(r)
  {
    if |rows| == 0 then []
    else
      var rest := FilterOrders(s, rows[1..], clientId, status, isCustomPrice);
      assert rows == [rows[0]] + rows[1..];
      if OrderMatches(s, rows[0], clientId, status, isCustomPrice) then
        assert forall k :: 0 <= k < |rest| ==> rest[k] in rows[1..];
        [rows[0]] + rest
      else rest
  }

  /**
   The count query as the repository builds it: with any filter it counts the
   distinct ids of the joined, filtered rows; with none it counts every order.
   */
  function CountClientOrders(s: Store, clientId: Option<int>, status: Option<OrderStatus>,
                             isCustomPrice: Option<bool>): (n: nat)
    ensures n <= |s.orders|
  {
    if isCustomPrice.Some? || clientId.Some? || status.Some? then
      var ids := set o | o in s.orders && ColumnFiltersMatch(o, clientId, status)
                         && JoinedLineMatches(s, o, isCustomPrice) :: o.id;
      IdsOfBound(s.orders);
      SubsetCard(ids, IdsOf(s.orders));
      |ids|
    else |s.orders|
  }

  /** The ids of a sequence of client orders. */
  function IdsOf(rows: seq<ClientOrder>): set<int>
  {
    set o | o in rows :: o.id
  }

  /** A sequence of orders carries at most as many distinct ids as it has rows. */
  lemma {:induction false} IdsOfBound(rows: seq<ClientOrder>)
    ensures |IdsOf(rows)| <= |rows|
    decreases |rows|
  {
    if |rows| == 0 {
      assert IdsOf(rows) == {};
    } else {
      assert rows == [rows[0]] + rows[1..];
      assert IdsOf(rows) == IdsOf(rows[1..]) + {rows[0].id};
      IdsOfBound(rows[1..]);
    }
  }

  /** A subset is no larger than its superset. */
  lemma SubsetCard(a: set<int>, b: set<int>)
    requires a <= b
    ensures |a| <= |b|
  {
    assert b == a + (b - a);
    assert a * (b - a) == {};
  }

  /** The matching client orders, newest first. */
  function ClientOrdersNewestFirst(s: Store, clientId: Option<int>, status: Option<OrderStatus>,
                                   isCustomPrice: Option<bool>): (r: seq<ClientOrder>)
    ensures SortedDesc(r, CreatedAt)
    ensures multiset(r) == multiset(FilterOrders(s, s.orders, clientId, status, isCustomPrice))
    ensures forall k :: 0 <= k < |r| ==> r[k] in s.orders && OrderMatches(s, r[k], clientId, status, isCustomPrice)
  {
    var matching := FilterOrders(s, s.orders, clientId, status, isCustomPrice);
    var r := SortDesc(matching, CreatedAt);
    assert forall k :: 0 <= k < |r| ==> r[k] in matching;
    r
  }

  /**
   One page of the matching client orders, newest first, together with the
   count query's result.
   */
  function GetClientOrdersPaginated(s: Store, clientId: Option<int>, status: Option<OrderStatus>,
                                    isCustomPrice: Option<bool>, page: int, pageSize: int)
    : (r: (seq<ClientOrder>, nat))
    ensures forall k :: 0 <= k < |r.0| ==>
      r.0[k] in s.orders && OrderMatches(s, r.0[k], clientId, status, isCustomPrice)
    ensures SortedDesc(r.0, CreatedAt)
    ensures |r.0| <= Limit(pageSize)
    ensures forall k :: 0 <= k < |r.0| ==>
      Offset(page, pageSize) + k < |ClientOrdersNewestFirst(s, clientId, status, isCustomPrice)| &&
      r.0[k] == ClientOrdersNewestFirst(s, clientId, status, isCustomPrice)[Offset(page, pageSize) + k]
    ensures |r.0| == PageLength(|ClientOrdersNewestFirst(s, clientId, status, isCustomPrice)|, page, pageSize)
    ensures r.1 == CountClientOrders(s, clientId, status, isCustomPrice)
  {
    var sorted := ClientOrdersNewestFirst(s, clientId, status, isCustomPrice);
    var items := Paginate(sorted, page, pageSize);
    PaginateKeepsOrder(sorted, page, pageSize, CreatedAt);
    (items, CountClientOrders(s, clientId, status, isCustomPrice))
  }

  /** The first supplier order with this id, if any. */
  function GetSupplierOrderById(s: Store, orderId: int): (r: Option<SupplierOrder>)
    ensures r.Some? ==> r.value in s.supplierOrders && r.value.id == orderId
    ensures r.None? <==> forall i :: 0 <= i < |s.supplierOrders| ==> s.supplierOrders[i].id != orderId
  {
    FirstSupplierOrder(s.supplierOrders, orderId)
  }

  function FirstSupplierOrder(rows: seq<SupplierOrder>, orderId: int): (r: Option<SupplierOrder>)
    ensures r.Some? ==> r.value in rows && r.value.id == orderId
    ensures r.None? <==> forall i :: 0 <= i < |rows| ==> rows[i].id != orderId
  {
    if |rows| == 0 then None
    else if rows[0].id == orderId then Some(rows[0])
    else
      var r := FirstSupplierOrder(rows[1..], orderId);
      assert forall i :: 1 <= i < |rows| ==> rows[i] == rows[1..][i - 1];
      r
  }

  /**
   One page of all supplier orders, newest first, with the number of all
   supplier orders.
   */
  function GetSupplierOrdersPaginated(s: Store, page: int, pageSize: int): (r: (seq<SupplierOrder>, nat))
    ensures r.1 == |s.supplierOrders|
    ensures |r.0| <= Limit(pageSize)
    ensures forall k :: 0 <= k < |r.0| ==> r.0[k] in s.supplierOrders
    ensures SortedDesc(r.0, SupplierCreatedAt)
    ensures page >= 1 && pageSize >= 1 && (page - 1) * pageSize < |s.supplierOrders| ==> |r.0| >= 1
    ensures |r.0| == PageLength(|s.supplierOrders|, page, pageSize)
    ensures forall k :: 0 <= k < |r.0| ==>
      Offset(page, pageSize) + k < |SortDesc(s.supplierOrders, SupplierCreatedAt)| &&
      r.0[k] == SortDesc(s.supplierOrders, SupplierCreatedAt)[Offset(page, pageSize) + k]
  {
    var sorted := SortDesc(s.supplierOrders, SupplierCreatedAt);
    var items := Paginate(sorted, page, pageSize);
    PaginateKeepsOrder(sorted, page, pageSize, SupplierCreatedAt);
    (items, |s.supplierOrders|)
  }
}
