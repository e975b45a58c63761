/**
 Properties of the listings and the detail views: the count query agrees with
 the page query, pages cover the listing, the two tests for a "custom" order
 agree while stored line prices match current product prices, and a client
 never sees another client's order.
 */
module ListingProofs {
  import opened Wrappers
  import opened Models
  import opened Errors
  import opened Schemas
  import opened Paging
  import opened Repositories
  import opened Services

  // ---------------------------------------------------------------------------
  // Count query versus page query
  // ---------------------------------------------------------------------------

  /** Orders with strictly increasing ids carry one distinct id per row. */
  lemma {:induction false} IdsOfIncreasing(rows: seq<ClientOrder>)
    requires OrderIdsIncreasing(rows)
    ensures |IdsOf(rows)| == |rows|
    decreases |rows|
  {
    if |rows| == 0 {
      assert IdsOf(rows) == {};
    } else {
      var tail := rows[1..];
      assert rows == [rows[0]] + tail;
      assert IdsOf(rows) == IdsOf(tail) + {rows[0].id};
      assert rows[0].id !in IdsOf(tail) by {
        forall o | o in tail
          ensures o.id != rows[0].id
        {
          var j :| 0 <= j < |tail| && tail[j] == o;
          assert rows[j + 1] == o;
        }
      }
      assert OrderIdsIncreasing(tail) by {
        forall i, j | 0 <= i < j < |tail|
          ensures tail[i].id < tail[j].id
        {
          assert tail[i] == rows[i + 1] && tail[j] == rows[j + 1];
        }
      }
      IdsOfIncreasing(tail);
    }
  }

  /** With no filter, the page query selects every order. */
  lemma {:induction false} FilterWithoutConditions(s: Store, rows: seq<ClientOrder>)
    ensures FilterOrders(s, rows, None, None, None) == rows
    decreases |rows|
  {
    if |rows| > 0 {
      FilterKeepsUnfiltered(s, rows);
      FilterWithoutConditions(s, rows[1..]);
      assert rows == [rows[0]] + rows[1..];
    }
  }

  /** With no filter, the first row is kept and the rest is filtered alike. */
  lemma FilterKeepsUnfiltered(s: Store, rows: seq<ClientOrder>)
    requires |rows| > 0
    ensures FilterOrders(s, rows, None, None, None) == [rows[0]] + FilterOrders(s, rows[1..], None, None, None)
  {
    assert OrderMatches(s, rows[0], None, None, None);
  }

  /**
   Under the store invariants the count query's result is the number of
   orders the page query selects, whatever filters are set.
   */
  lemma CountMatchesListing(s: Store, clientId: Option<int>, status: Option<OrderStatus>, isCustomPrice: Option<bool>)
    requires Valid(s)
    ensures CountClientOrders(s, clientId, status, isCustomPrice) == |FilterOrders(s, s.orders, clientId, status, isCustomPrice)|
    ensures CountClientOrders(s, clientId, status, isCustomPrice) == |ClientOrdersNewestFirst(s, clientId, status, isCustomPrice)|
  {
    var f := FilterOrders(s, s.orders, clientId, status, isCustomPrice);
    var sorted := ClientOrdersNewestFirst(s, clientId, status, isCustomPrice);
    assert |sorted| == |multiset(sorted)| == |multiset(f)| == |f|;
    if isCustomPrice.Some? || clientId.Some? || status.Some? {
      var ids := set o | o in s.orders && ColumnFiltersMatch(o, clientId, status)
                         && JoinedLineMatches(s, o, isCustomPrice) :: o.id;
      assert ids == IdsOf(f);
      IdsOfIncreasing(f);
    } else {
      FilterWithoutConditions(s, s.orders);
    }
  }

  /** A page whose offset lies below the total is numbered within the total number of pages. */
  lemma OffsetBelowTotal(page: int, pageSize: int, totalItems: nat)
    requires page >= 1 && pageSize >= 1
    requires (page - 1) * pageSize < totalItems
    ensures page <= TotalPages(totalItems, pageSize)
  {
    MulCancel(page - 1, TotalPages(totalItems, pageSize), pageSize);
  }

  /**
   Under the store invariants, a page of the client-order listing is
   non-empty exactly when its offset lies below the reported total.
   */
  lemma PageNonEmptyIff(s: Store, clientId: Option<int>, status: Option<OrderStatus>, isCustomPrice: Option<bool>,
                        page: int, pageSize: int)
    requires Valid(s)
    requires page >= 1 && pageSize >= 1
    ensures var r := GetClientOrdersPaginated(s, clientId, status, isCustomPrice, page, pageSize);
      |r.0| > 0 <==> (page - 1) * pageSize < r.1
  {
    CountMatchesListing(s, clientId, status, isCustomPrice);
    var sorted := ClientOrdersNewestFirst(s, clientId, status, isCustomPrice);
    assert GetClientOrdersPaginated(s, clientId, status, isCustomPrice, page, pageSize).0 == Paginate(sorted, page, pageSize);
  }

  /** Under the store invariants, a non-empty page's number is within the reported number of pages. */
  lemma PageWithinTotal(s: Store, clientId: Option<int>, status: Option<OrderStatus>, isCustomPrice: Option<bool>,
                        page: int, pageSize: int)
    requires Valid(s)
    requires page >= 1 && pageSize >= 1
    ensures var r := GetClientOrdersPaginated(s, clientId, status, isCustomPrice, page, pageSize);
      |r.0| > 0 ==> page <= TotalPages(r.1, pageSize)
  {
    PageNonEmptyIff(s, clientId, status, isCustomPrice, page, pageSize);
    var r := GetClientOrdersPaginated(s, clientId, status, isCustomPrice, page, pageSize);
    if |r.0| > 0 {
      OffsetBelowTotal(page, pageSize, r.1);
    }
  }

  /** A supplier-order page is non-empty exactly when its offset lies below the reported total. */
  lemma SupplierPageNonEmptyIff(s: Store, page: int, pageSize: int)
    requires page >= 1 && pageSize >= 1
    ensures var r := GetSupplierOrdersPaginated(s, page, pageSize);
      |r.0| > 0 <==> (page - 1) * pageSize < r.1
  {
  }

  /** A non-empty supplier-order page's number is within the reported number of pages. */
  lemma SupplierPageWithinTotal(s: Store, page: int, pageSize: int)
    requires page >= 1 && pageSize >= 1
    ensures var r := GetSupplierOrdersPaginated(s, page, pageSize);
      |r.0| > 0 ==> page <= TotalPages(r.1, pageSize)
  {
    SupplierPageNonEmptyIff(s, page, pageSize);
    var r := GetSupplierOrdersPaginated(s, page, pageSize);
    if |r.0| > 0 {
      OffsetBelowTotal(page, pageSize, r.1);
    }
  }

  /** The worked listing example: 25 orders, page 2 of 10 holds 10 orders, out of 25 on 3 pages. */
  lemma SecondPageOfTwentyFiveOrders(s: Store, adminId: int)
    requires |s.orders| == 25
    requires CheckIsAdmin(s, adminId).Success?
    ensures var r := ListAllClientOrders(s, adminId, 2, 10);
      && r.Success?
      && |r.value.items| == 10
      && r.value.totalItems == 25
      && r.value.totalPages == 3
  {
    FilterWithoutConditions(s, s.orders);
    var sorted := ClientOrdersNewestFirst(s, None, None, None);
    assert |sorted| == |multiset(sorted)| == |multiset(s.orders)| == 25;
    TwentyFiveRowsMakeThreePages();
  }

  // ---------------------------------------------------------------------------
  // The two tests for a custom order
  // ---------------------------------------------------------------------------

  /** Every line of the order whose product exists carries that product's current price. */
  predicate PricesCurrent(s: Store, orderId: int)
  {
    forall i :: 0 <= i < |s.links| && s.links[i].orderId == orderId && s.links[i].productId in s.products ==>
      s.links[i].unitPrice == s.products[s.links[i].productId].price
  }

  /** A joined product priced 0 shows as a line priced 0 when stored prices are current. */
  lemma ListedCustomShowsZeroLine(s: Store, o: ClientOrder)
    requires PricesCurrent(s, o.id)
    requires JoinedLineMatches(s, o, Some(true))
    ensures HasZeroPricedLine(ShownLines(s, LinesOf(s.links, o.id)))
  {
    var i :| 0 <= i < |s.links| && s.links[i].orderId == o.id && s.links[i].productId in s.products
             && s.products[s.links[i].productId].price == 0;
    var lines := LinesOf(s.links, o.id);
    var shown := ShownLines(s, lines);
    var j :| 0 <= j < |lines| && lines[j] == s.links[i];
    var k :| 0 <= k < |shown| && shown[k] == ShowLine(s, lines[j]);
    assert shown[k].unitPrice == 0;
  }

  /** A shown line priced 0 means a joined product priced 0 when stored prices are current. */
  lemma ZeroLineIsListedCustom(s: Store, o: ClientOrder)
    requires PricesCurrent(s, o.id)
    requires HasZeroPricedLine(ShownLines(s, LinesOf(s.links, o.id)))
    ensures JoinedLineMatches(s, o, Some(true))
  {
    var shown := ShownLines(s, LinesOf(s.links, o.id));
    var k :| 0 <= k < |shown| && shown[k].unitPrice == 0;
    var l :| l in LinesOf(s.links, o.id) && l.productId in s.products && shown[k] == ShowLine(s, l);
    var i :| 0 <= i < |s.links| && s.links[i] == l;
    assert s.links[i].unitPrice == 0;
  }

  /**
   While an order's stored unit prices equal its products' current prices,
   the listing's test (a joined product priced 0) and the detail view's test
   (a shown line priced 0) agree.
   */
  lemma CustomTestsAgree(s: Store, o: ClientOrder)
    requires PricesCurrent(s, o.id)
    ensures JoinedLineMatches(s, o, Some(true)) <==> HasZeroPricedLine(ShownLines(s, LinesOf(s.links, o.id)))
  {
    if JoinedLineMatches(s, o, Some(true)) {
      ListedCustomShowsZeroLine(s, o);
    }
    if HasZeroPricedLine(ShownLines(s, LinesOf(s.links, o.id))) {
      ZeroLineIsListedCustom(s, o);
    }
  }

  /** A store in which the custom product of order 1 was repriced from 500 to 0 after the order. */
  function RepricedStore(): Store
  {
    Store(
      map[1 := Product(1, "Bespoke", "made to order", 0, 0, None)],
      map[7 := User([Role("admin")])],
      map[],
      [ClientOrder(1, 9, 500, Confirmed, 0, 0)],
      [OrderLine(1, 1, 1, 500)],
      [],
      2, 2)
  }

  /**
   Once a product is repriced, the two tests part: the listing counts order 1
   as custom (its product now costs 0) while its detail view, which looks at
   the stored unit price of 500, reports it as not custom.
   */
  lemma CustomTestsDisagreeAfterRepricing()
    ensures Valid(RepricedStore())
    ensures JoinedLineMatches(RepricedStore(), RepricedStore().orders[0], Some(true))
    ensures GetCustomClientOrderDetails(RepricedStore(), 7, 1) == Failure(NotCustom)
  {
    var s := RepricedStore();
    assert HasAdminRole(s.users[7]) by {
      assert s.users[7].roles[0].title == "admin";
    }
    assert s.links[0].orderId == 1 && s.links[0].productId in s.products;
    var lines := LinesOf(s.links, 1);
    assert lines == [s.links[0]] by {
      assert LinesOf(s.links[1..], 1) == [];
    }
    assert ShownLines(s, lines) == [ShowLine(s, s.links[0])] by {
      assert ShownLines(s, lines[1..]) == [];
    }
  }

  // ---------------------------------------------------------------------------
  // Ownership
  // ---------------------------------------------------------------------------

  /** A client who asks for an order of another client is told it does not exist. */
  lemma OtherClientsOrderNotFound(s: Store, userId: int, orderId: int)
    requires forall i :: 0 <= i < |s.orders| && s.orders[i].id == orderId ==> s.orders[i].clientId != userId
    ensures GetClientOrderDetails(s, userId, orderId, false) == Failure(OrderNotFound)
  {
  }

  /**
   Under the store invariants, the owner of an order gets exactly that order,
   with every line whose product exists.
   */
  lemma OwnerSeesOrder(s: Store, i: nat)
    requires Valid(s)
    requires i < |s.orders|
    ensures var r := GetClientOrderDetails(s, s.orders[i].clientId, s.orders[i].id, false);
      && r.Success?
      && r.value.order == s.orders[i]
      && r.value.products == ShownLines(s, LinesOf(s.links, s.orders[i].id))
  {
    var o := s.orders[i];
    assert OwnerVisible(o, o.id, Some(o.clientId), false);
    var r := GetClientOrderById(s, o.id, Some(o.clientId), false);
    var j :| 0 <= j < |s.orders| && s.orders[j] == r.value;
    assert j == i;
  }

  /** The admin gate on three users: one unknown, one customer, one admin and customer. */
  lemma AdminGateExamples(s: Store)
    requires s.users == map[1 := User([Role("customer")]), 2 := User([Role("admin"), Role("customer")])]
    ensures CheckIsAdmin(s, 3) == Failure(UserNotFound) && StatusCode(CheckIsAdmin(s, 3).error) == 401
    ensures CheckIsAdmin(s, 1) == Failure(AdminRequired) && StatusCode(CheckIsAdmin(s, 1).error) == 403
    ensures CheckIsAdmin(s, 2) == Success(s.users[2])
  {
    assert s.users[2].roles[0].title == "admin";
    assert !HasAdminRole(s.users[1]) by {
      assert s.users[1].roles[0].title == "customer";
    }
  }

  // Arithmetic helper used by the proofs above.

  /** Multiplying by a positive factor keeps a strict order between integers. */
  lemma MulCancel(a: int, b: int, c: int)
    requires c > 0
    requires a * c < b * c
    ensures a < b
  {
  }
}
