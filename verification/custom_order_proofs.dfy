/**
 Properties of custom-order creation: the documented behaviour (a price-0,
 stock-1 product, a CUSTOM_PENDING order with total 0, one line at price 0),
 that such an order is recognised as custom by both the listing and the
 detail view, and that the code as it stands never gets past building the
 product-creation body.
 */
module CustomOrderProofs {
  import opened Wrappers
  import opened Models
  import opened Errors
  import opened Schemas
  import opened Repositories
  import opened Services

  /** The custom product a request creates under id `id`. */
  function CustomProduct(id: int, name: string, description: string): Product
  {
    Product(id, name, description, 0, 1, None)
  }

  /** Appending a line of a fresh order leaves that line as the order's only one. */
  lemma {:induction false} LinesOfFresh(links: seq<OrderLine>, l: OrderLine)
    requires forall i :: 0 <= i < |links| ==> links[i].orderId != l.orderId
    ensures LinesOf(links + [l], l.orderId) == [l]
    decreases |links|
  {
    if |links| == 0 {
      assert LinesOf([l][1..], l.orderId) == [];
    } else {
      assert (links + [l])[1..] == links[1..] + [l];
      LinesOfFresh(links[1..], l);
    }
  }

  /** Reading the custom product back by name finds the product just written. */
  lemma NewestIsJustCreated(s: Store, name: string, description: string)
    requires Valid(s)
    ensures var s1 := CreateProduct(s, name, description, 0, 1, None).1;
      NewestProductByName(s1.products, name, s1.nextProductId) == Some(CustomProduct(s.nextProductId, name, description))
  {
  }

  /** Adding a fresh product, a fresh order and that order's one line keeps the store invariants. */
  lemma CustomWritesKeepValid(s: Store, t: Store, userId: int, name: string, description: string, now: nat)
    requires Valid(s)
    requires var pid := s.nextProductId;
             var oid := s.nextOrderId;
      t == s.(products := s.products[pid := CustomProduct(pid, name, description)],
              orders := s.orders + [ClientOrder(oid, userId, 0, CustomPending, now, now)],
              links := s.links + [OrderLine(oid, pid, 1, 0)],
              nextProductId := pid + 1, nextOrderId := oid + 1)
    ensures Valid(t)
  {
    assert forall i :: 0 <= i < |s.orders| ==> t.orders[i] == s.orders[i];
    assert forall i :: 0 <= i < |s.links| ==> t.links[i] == s.links[i];
  }

  /**
   Under the store invariants a custom order is created: it gets the next
   order id, the store gains exactly the product, the order and its one line,
   and the invariants still hold.
   */
  lemma CustomOrderCreated(s: Store, userId: int, name: string, description: string, now: nat)
    requires Valid(s)
    ensures var r := CreateCustomOrder(s, userId, name, description, now);
            var pid := s.nextProductId;
            var oid := s.nextOrderId;
      && r.0 == Success(oid)
      && r.1.products == s.products[pid := CustomProduct(pid, name, description)]
      && r.1.orders == s.orders + [ClientOrder(oid, userId, 0, CustomPending, now, now)]
      && r.1.links == s.links + [OrderLine(oid, pid, 1, 0)]
      && r.1 == s.(products := r.1.products, orders := r.1.orders, links := r.1.links,
                   nextProductId := pid + 1, nextOrderId := oid + 1)
      && LinesOf(r.1.links, oid) == [OrderLine(oid, pid, 1, 0)]
      && Valid(r.1)
  {
    NewestIsJustCreated(s, name, description);
    var pid := s.nextProductId;
    var oid := s.nextOrderId;
    var s1 := CreateProduct(s, name, description, 0, 1, None).1;
    var s2 := CreateClientOrder(s1, userId, 0, CustomPending, now).1;
    assert !HasLine(s2.links, oid, pid);
    var r := CreateCustomOrder(s, userId, name, description, now);
    LinesOfFresh(s.links, OrderLine(oid, pid, 1, 0));
    CustomWritesKeepValid(s, r.1, userId, name, description, now);
  }

  /**
   A freshly created custom order is custom by both tests: the listing's
   (its product costs 0) and the detail view's (its line is priced 0).
   */
  lemma CustomOrderIsCustom(s: Store, userId: int, name: string, description: string, now: nat, adminId: int)
    requires Valid(s)
    requires CheckIsAdmin(s, adminId).Success?
    ensures var r := CreateCustomOrder(s, userId, name, description, now);
            var order := ClientOrder(s.nextOrderId, userId, 0, CustomPending, now, now);
      && JoinedLineMatches(r.1, order, Some(true))
      && GetCustomClientOrderDetails(r.1, adminId, s.nextOrderId)
         == Success(ClientOrderDetails(order, [ProductInOrder(s.nextProductId, name, 1, 0)]))
  {
    CustomOrderCreated(s, userId, name, description, now);
    var r := CreateCustomOrder(s, userId, name, description, now);
    var pid := s.nextProductId;
    var oid := s.nextOrderId;
    var order := ClientOrder(oid, userId, 0, CustomPending, now, now);
    var line := OrderLine(oid, pid, 1, 0);
    assert r.1.links[|s.links|] == line;
    assert r.1.users == s.users;
    assert r.1.orders[|s.orders|] == order;
    assert GetClientOrderById(r.1, oid, Some(adminId), true) == Some(order) by {
      assert forall i :: 0 <= i < |s.orders| ==> r.1.orders[i].id < oid;
    }
    assert ShownLines(r.1, [line]) == [ProductInOrder(pid, name, 1, 0)] by {
      assert ShownLines(r.1, [line][1..]) == [];
    }
    var shown := [ProductInOrder(pid, name, 1, 0)];
    assert HasZeroPricedLine(shown) by {
      assert shown[0].unitPrice == 0;
    }
  }

  /**
   The code as written never creates a custom order: building the product
   body without a supplier id is refused, so it fails without writing
   anything, where the documented behaviour succeeds under the same invariants.
   */
  lemma CustomOrderAsWrittenNeverSucceeds(s: Store, userId: int, name: string, description: string, now: nat)
    requires Valid(s)
    ensures CreateCustomOrderAsWritten(s, userId, name, description, now) == (Failure(InternalError(ProductSchemaRejected)), s)
    ensures CreateCustomOrder(s, userId, name, description, now).0.Success?
  {
    CustomOrderCreated(s, userId, name, description, now);
  }
}
