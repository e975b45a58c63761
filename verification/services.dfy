/**
 The order services: the admin gate, purchase-order and custom-order
 creation, order details and the paginated listings. Each operation takes the
 store and returns its result; the creating operations also return the store
 as left behind, including the writes made before a failure.
 */
module Services {
  import opened Wrappers
  import opened Models
  import opened Errors
  import opened Schemas
  import opened Paging
  import opened Repositories

  // ---------------------------------------------------------------------------
  // Admin gate
  // ---------------------------------------------------------------------------

  /** Whether one of the user's roles is titled "admin". */
  predicate HasAdminRole(u: User)
  {
    exists i :: 0 <= i < |u.roles| && u.roles[i].title == "admin"
  }

  function RoleTitles(roles: seq<Role>): (titles: seq<string>)
    ensures |titles| == |roles|
    ensures forall i :: 0 <= i < |roles| ==> titles[i] == roles[i].title
  {
    seq(|roles|, i requires 0 <= i < |roles| => roles[i].title)
  }

  /**
   The admin gate: an unknown user is unauthorized, a known user without an
   "admin" role is forbidden, anyone else passes and is returned.
   */
  function CheckIsAdmin(s: Store, userId: int): (r: Result<User, Error>)
    ensures r == Failure(UserNotFound) <==> userId !in s.users
    ensures r == Failure(AdminRequired) <==> userId in s.users && !HasAdminRole(s.users[userId])
    ensures r.Success? <==> userId in s.users && HasAdminRole(s.users[userId])
    ensures r.Success? ==> r.value == s.users[userId]
  {
    match GetUserWithRoles(s, userId)
    case None => Failure(UserNotFound)
    case Some(user) =>
      var titles := RoleTitles(user.roles);
      if "admin" !in titles then
        Failure(AdminRequired)
      else
        Success(user)
  }

  // ---------------------------------------------------------------------------
  // Listings
  // ---------------------------------------------------------------------------

  /** `ceil(total_items / page_size)` for a positive page size, 0 otherwise. */
  function TotalPages(totalItems: nat, pageSize: int): (n: nat)
    ensures pageSize <= 0 ==> n == 0
    ensures pageSize > 0 ==> totalItems <= n * pageSize < totalItems + pageSize
  {
    if pageSize > 0 then
      var n := (totalItems + pageSize - 1) / pageSize;
      var rem := (totalItems + pageSize - 1) % pageSize;
      assert n * pageSize == totalItems + pageSize - 1 - rem;
      n
    else 0
  }

  /** The worked example: 25 matching rows at 10 per page make 3 pages. */
  lemma TwentyFiveRowsMakeThreePages()
    ensures TotalPages(25, 10) == 3
  {
  }

  /** Wraps one page of rows and the row count into the response envelope. */
  function MakePage<T>(page: int, pageSize: int, rows: (seq<T>, nat)): (r: PaginatedResponse<T>)
    ensures r.page == page && r.pageSize == pageSize && r.items == rows.0 && r.totalItems == rows.1
    ensures pageSize > 0 ==> r.totalItems <= r.totalPages * pageSize < r.totalItems + pageSize
    ensures pageSize <= 0 ==> r.totalPages == 0
  {
    PaginatedResponse(page, pageSize, rows.1, TotalPages(rows.1, pageSize), rows.0)
  }

  /** The caller's own orders, optionally of one status, newest first. */
  function ListClientOrders(s: Store, userId: int, page: int, pageSize: int, state: Option<OrderStatus>)
    : (r: PaginatedResponse<ClientOrder>)
    ensures forall k :: 0 <= k < |r.items| ==>
      r.items[k] in s.orders && r.items[k].clientId == userId
      && (state.Some? ==> r.items[k].status == state.value)
    ensures SortedDesc(r.items, CreatedAt)
    ensures |r.items| <= Limit(pageSize)
    ensures r.totalItems == CountClientOrders(s, Some(userId), state, None)
    ensures r.items == GetClientOrdersPaginated(s, Some(userId), state, None, page, pageSize).0
    ensures r.page == page && r.pageSize == pageSize && r.totalPages == TotalPages(r.totalItems, pageSize)
  {
    MakePage(page, pageSize, GetClientOrdersPaginated(s, Some(userId), state, None, page, pageSize))
  }

  /** (Admin) every client order, newest first. */
  function ListAllClientOrders(s: Store, adminId: int, page: int, pageSize: int)
    : (r: Result<PaginatedResponse<ClientOrder>, Error>)
    ensures CheckIsAdmin(s, adminId).Failure? ==> r == Failure(CheckIsAdmin(s, adminId).error)
    ensures r.Success? ==> CheckIsAdmin(s, adminId).Success?
    ensures r.Success? ==> r.value.totalItems == |s.orders|
    ensures r.Success? ==> r.value.items == GetClientOrdersPaginated(s, None, None, None, page, pageSize).0
    ensures r.Success? ==> r.value.page == page && r.value.pageSize == pageSize
                           && r.value.totalPages == TotalPages(r.value.totalItems, pageSize)
    ensures r.Success? ==> forall k :: 0 <= k < |r.value.items| ==> r.value.items[k] in s.orders
    ensures r.Success? ==> SortedDesc(r.value.items, CreatedAt) && |r.value.items| <= Limit(pageSize)
  {
    match CheckIsAdmin(s, adminId)
    case Failure(e) => Failure(e)
    case Success(_) =>
      Success(MakePage(page, pageSize, GetClientOrdersPaginated(s, None, None, None, page, pageSize)))
  }

  /**
   (Admin) the custom client orders: those joined to at least one product whose
   current price is 0, each once, newest first.
   */
  function ListCustomClientOrders(s: Store, adminId: int, page: int, pageSize: int)
    : (r: Result<PaginatedResponse<ClientOrder>, Error>)
    ensures CheckIsAdmin(s, adminId).Failure? ==> r == Failure(CheckIsAdmin(s, adminId).error)
    ensures r.Success? ==> CheckIsAdmin(s, adminId).Success?
    ensures r.Success? ==> forall k :: 0 <= k < |r.value.items| ==>
      r.value.items[k] in s.orders && JoinedLineMatches(s, r.value.items[k], Some(true))
    ensures r.Success? ==> r.value.totalItems == CountClientOrders(s, None, None, Some(true))
    ensures r.Success? ==> r.value.items == GetClientOrdersPaginated(s, None, None, Some(true), page, pageSize).0
    ensures r.Success? ==> r.value.page == page && r.value.pageSize == pageSize
                           && r.value.totalPages == TotalPages(r.value.totalItems, pageSize)
    ensures r.Success? ==> SortedDesc(r.value.items, CreatedAt) && |r.value.items| <= Limit(pageSize)
  {
    match CheckIsAdmin(s, adminId)
    case Failure(e) => Failure(e)
    case Success(_) =>
      Success(MakePage(page, pageSize, GetClientOrdersPaginated(s, None, None, Some(true), page, pageSize)))
  }

  /** (Admin) every supplier order, newest first. */
  function ListAllSupplierOrders(s: Store, adminId: int, page: int, pageSize: int)
    : (r: Result<PaginatedResponse<SupplierOrder>, Error>)
    ensures CheckIsAdmin(s, adminId).Failure? ==> r == Failure(CheckIsAdmin(s, adminId).error)
    ensures r.Success? ==> CheckIsAdmin(s, adminId).Success?
    ensures r.Success? ==> r.value.totalItems == |s.supplierOrders|
    ensures r.Success? ==> r.value.items == GetSupplierOrdersPaginated(s, page, pageSize).0
    ensures r.Success? ==> r.value.page == page && r.value.pageSize == pageSize
                           && r.value.totalPages == TotalPages(r.value.totalItems, pageSize)
    ensures r.Success? ==> forall k :: 0 <= k < |r.value.items| ==> r.value.items[k] in s.supplierOrders
    ensures r.Success? ==> SortedDesc(r.value.items, SupplierCreatedAt) && |r.value.items| <= Limit(pageSize)
  {
    match CheckIsAdmin(s, adminId)
    case Failure(e) => Failure(e)
    case Success(_) => Success(MakePage(page, pageSize, GetSupplierOrdersPaginated(s, page, pageSize)))
  }

  // ---------------------------------------------------------------------------
  // Details
  // ---------------------------------------------------------------------------

  /** How a link row whose product exists is shown. */
  function ShowLine(s: Store, l: OrderLine): ProductInOrder
    requires l.productId in s.products
  {
    ProductInOrder(s.products[l.productId].id, s.products[l.productId].name, l.amount, l.unitPrice)
  }

  /** The shown lines: every link row whose product row exists, in the order of the given links. */
  function ShownLines(s: Store, lines: seq<OrderLine>): (r: seq<ProductInOrder>)
    ensures |r| <= |lines|
    ensures forall k :: 0 <= k < |r| ==>
      exists l :: l in lines && l.productId in s.products && r[k] == ShowLine(s, l)
    ensures forall i :: 0 <= i < |lines| && lines[i].productId in s.products ==> ShowLine(s, lines[i]) in r
    ensures |lines| == 1 ==> r == if lines[0].productId in s.products then [ShowLine(s, lines[0])] else []
  {
    if |lines| == 0 then []
    else
      var rest := ShownLines(s, lines[1..]);
      assert forall i :: 1 <= i < |lines| ==> lines[i] == lines[1..][i - 1];
      assert forall l :: l in lines[1..] ==> l in lines;
      if lines[0].productId in s.products then [ShowLine(s, lines[0])] + rest else rest
  }

  /** The shown lines of a concatenation are those of each part in turn: each link once, in the order of the given links. */
  lemma {:induction false} ShownLinesAppend(s: Store, a: seq<OrderLine>, b: seq<OrderLine>)
    ensures ShownLines(s, a + b) == ShownLines(s, a) + ShownLines(s, b)
    decreases |a|
  {
    if |a| == 0 {
      assert a + b == b;
    } else {
      ShownLinesAppend(s, a[1..], b);
      ShownLinesAppendStep(s, a, b);
    }
  }

  /** The inductive step of `ShownLinesAppend`: it holds for `a` once it holds for `a` without its first link. */
  lemma ShownLinesAppendStep(s: Store, a: seq<OrderLine>, b: seq<OrderLine>)
    requires |a| > 0
    requires ShownLines(s, a[1..] + b) == ShownLines(s, a[1..]) + ShownLines(s, b)
    ensures ShownLines(s, a + b) == ShownLines(s, a) + ShownLines(s, b)
  {
    var t := a[1..];
    var h := if a[0].productId in s.products then [ShowLine(s, a[0])] else [];
    SplitHead(a, b);
    assert ShownLines(s, a) == h + ShownLines(s, t) by {
      ShownLinesCons(s, a[0], t);
    }
    assert ShownLines(s, a + b) == h + ShownLines(s, t + b) by {
      ShownLinesCons(s, a[0], t + b);
    }
    HeadThenAppend(ShownLines(s, a + b), ShownLines(s, a), h, ShownLines(s, t), ShownLines(s, b), ShownLines(s, t + b));
  }

  /** One step of `ShownLines`: the first link's line, if shown, then the rest. */
  lemma ShownLinesCons(s: Store, l: OrderLine, rest: seq<OrderLine>)
    ensures ShownLines(s, [l] + rest)
         == (if l.productId in s.products then [ShowLine(s, l)] else []) + ShownLines(s, rest)
  {
    assert ([l] + rest)[1..] == rest;
  }

  /**
   An order with its lines. Callers that are not admin only see their own
   orders; anything else is reported as not found.
   */
  function GetClientOrderDetails(s: Store, userId: int, orderId: int, isAdmin: bool)
    : (r: Result<ClientOrderDetails, Error>)
    ensures r.Failure? ==> r.error == OrderNotFound
    ensures r.Failure? <==> forall i :: 0 <= i < |s.orders| ==> !OwnerVisible(s.orders[i], orderId, Some(userId), isAdmin)
    ensures r.Success? ==> r.value.order in s.orders && r.value.order.id == orderId
    ensures r.Success? && !isAdmin ==> r.value.order.clientId == userId
    ensures r.Success? ==> r.value.products == ShownLines(s, LinesOf(s.links, orderId))
    ensures r.Success? ==> forall i :: 0 <= i < |s.links| && s.links[i].orderId == orderId
                                       && s.links[i].productId in s.products ==>
                                       ShowLine(s, s.links[i]) in r.value.products
    ensures r.Success? ==> forall p :: p in r.value.products ==> LineOfOrder(s, orderId, p)
  {
    match GetClientOrderById(s, orderId, Some(userId), isAdmin)
    case None => Failure(OrderNotFound)
    case Some(order) =>
      ShownLinesOfOrder(s, order.id);
      Success(ClientOrderDetails(order, ShownLines(s, LinesOf(s.links, order.id))))
  }

  /** `p` is how the line of one of the order's links to an existing product is shown. */
  ghost predicate LineOfOrder(s: Store, orderId: int, p: ProductInOrder)
  {
    exists i :: 0 <= i < |s.links| && s.links[i].orderId == orderId && s.links[i].productId in s.products
                && p == ShowLine(s, s.links[i])
  }

  /** Every line shown for an order comes from one of that order's links to an existing product. */
  lemma ShownLinesOfOrder(s: Store, orderId: int)
    ensures forall p :: p in ShownLines(s, LinesOf(s.links, orderId)) ==> LineOfOrder(s, orderId, p)
  {
    forall p | p in ShownLines(s, LinesOf(s.links, orderId))
      ensures LineOfOrder(s, orderId, p)
    {
      ShownLineOfOrder(s, orderId, LinesOf(s.links, orderId), p);
    }
  }

  /** One shown line of an order, traced back to its link. */
  lemma ShownLineOfOrder(s: Store, orderId: int, lines: seq<OrderLine>, p: ProductInOrder)
    requires lines == LinesOf(s.links, orderId)
    requires p in ShownLines(s, lines)
    ensures LineOfOrder(s, orderId, p)
  {
    var k :| 0 <= k < |ShownLines(s, lines)| && ShownLines(s, lines)[k] == p;
    ShownLineSource(s, lines, k);
    var l :| l in lines && l.productId in s.products && p == ShowLine(s, l);
    var i := LinkOfLine(s.links, orderId, l);
    assert s.links[i].orderId == orderId && s.links[i].productId in s.products && p == ShowLine(s, s.links[i]);
  }

  /** A line selected for an order sits in the link table under that order. */
  lemma LinkOfLine(links: seq<OrderLine>, orderId: int, l: OrderLine) returns (i: nat)
    requires l in LinesOf(links, orderId)
    ensures i < |links| && links[i] == l && l.orderId == orderId
  {
    var j :| 0 <= j < |LinesOf(links, orderId)| && LinesOf(links, orderId)[j] == l;
    i :| 0 <= i < |links| && links[i] == l;
  }

  /** Each shown line is the line of some link to an existing product. */
  lemma ShownLineSource(s: Store, lines: seq<OrderLine>, k: int)
    requires 0 <= k < |ShownLines(s, lines)|
    ensures exists l :: l in lines && l.productId in s.products && ShownLines(s, lines)[k] == ShowLine(s, l)
  {
  }

  /** (Admin) any client order with its lines. */
  function GetAnyClientOrderDetails(s: Store, adminId: int, orderId: int)
    : (r: Result<ClientOrderDetails, Error>)
    ensures CheckIsAdmin(s, adminId).Failure? ==> r == Failure(CheckIsAdmin(s, adminId).error)
    ensures CheckIsAdmin(s, adminId).Success? ==>
      (r.Success? <==> exists i :: 0 <= i < |s.orders| && s.orders[i].id == orderId)
    ensures CheckIsAdmin(s, adminId).Success? && r.Failure? ==> r.error == OrderNotFound
    ensures CheckIsAdmin(s, adminId).Success? ==> r == GetClientOrderDetails(s, adminId, orderId, true)
    ensures r.Success? ==> r.value.order in s.orders && r.value.order.id == orderId
  {
    match CheckIsAdmin(s, adminId)
    case Failure(e) => Failure(e)
    case Success(_) => GetClientOrderDetails(s, adminId, orderId, true)
  }

  /** Whether a shown line carries a unit price of 0. */
  function HasZeroPricedLine(products: seq<ProductInOrder>): (b: bool)
    ensures b <==> exists k :: 0 <= k < |products| && products[k].unitPrice == 0
  {
    if |products| == 0 then false
    else if products[0].unitPrice == 0 then true
    else
      assert forall k :: 1 <= k < |products| ==> products[k] == products[1..][k - 1];
      HasZeroPricedLine(products[1..])
  }

  /**
   (Admin) a custom order with its lines: it is custom when one of its shown
   lines has unit price 0, and reported as not found otherwise.
   */
  function GetCustomClientOrderDetails(s: Store, adminId: int, orderId: int)
    : (r: Result<ClientOrderDetails, Error>)
    ensures CheckIsAdmin(s, adminId).Failure? ==> r == Failure(CheckIsAdmin(s, adminId).error)
    ensures r.Success? ==> exists k :: 0 <= k < |r.value.products| && r.value.products[k].unitPrice == 0
    ensures r.Success? ==> r.value.order in s.orders && r.value.order.id == orderId
    ensures (CheckIsAdmin(s, adminId).Success? && GetClientOrderDetails(s, adminId, orderId, true).Success?
             && r.Failure?) ==> r.error == NotCustom
    ensures CheckIsAdmin(s, adminId).Success? && GetClientOrderDetails(s, adminId, orderId, true).Failure?
            ==> r == Failure(OrderNotFound)
    ensures CheckIsAdmin(s, adminId).Success? && GetClientOrderDetails(s, adminId, orderId, true).Success?
            && HasZeroPricedLine(GetClientOrderDetails(s, adminId, orderId, true).value.products)
            ==> r == GetClientOrderDetails(s, adminId, orderId, true)
  {
    match CheckIsAdmin(s, adminId)
    case Failure(e) => Failure(e)
    case Success(_) =>
      match GetClientOrderDetails(s, adminId, orderId, true)
      case Failure(e) => Failure(e)
      case Success(details) =>
        if !HasZeroPricedLine(details.products) then Failure(NotCustom) else Success(details)
  }

  /** (Admin) a supplier order with its supplier's and product's names, when those rows exist. */
  function GetSupplierOrderDetails(s: Store, adminId: int, orderId: int)
    : (r: Result<SupplierOrderDetails, Error>)
    ensures CheckIsAdmin(s, adminId).Failure? ==> r == Failure(CheckIsAdmin(s, adminId).error)
    ensures r.Failure? && CheckIsAdmin(s, adminId).Success? ==>
      r.error == SupplierOrderNotFound
      && forall i :: 0 <= i < |s.supplierOrders| ==> s.supplierOrders[i].id != orderId
    ensures r.Success? ==> r.value.order in s.supplierOrders && r.value.order.id == orderId
    ensures r.Success? ==> (r.value.supplierName.Some? <==> r.value.order.supplierId in s.suppliers)
    ensures r.Success? && r.value.supplierName.Some? ==>
      r.value.supplierName.value == s.suppliers[r.value.order.supplierId].name
    ensures r.Success? ==> (r.value.productName.Some? <==> r.value.order.productId in s.products)
    ensures r.Success? && r.value.productName.Some? ==>
      r.value.productName.value == s.products[r.value.order.productId].name
  {
    match CheckIsAdmin(s, adminId)
    case Failure(e) => Failure(e)
    case Success(_) =>
      match GetSupplierOrderById(s, orderId)
      case None => Failure(SupplierOrderNotFound)
      case Some(o) =>
        var supplierName := if o.supplierId in s.suppliers then Some(s.suppliers[o.supplierId].name) else None;
        var productName := if o.productId in s.products then Some(s.products[o.productId].name) else None;
        Success(SupplierOrderDetails(o, supplierName, productName))
  }

  // ---------------------------------------------------------------------------
  // Purchase orders
  // ---------------------------------------------------------------------------

  /** The requested product ids, in request order, duplicates kept. */
  function ProductIds(items: seq<PurchaseItem>): (ids: seq<int>)
    ensures |ids| == |items|
    ensures forall i :: 0 <= i < |items| ==> ids[i] == items[i].productId
  {
    seq(|items|, i requires 0 <= i < |items| => items[i].productId)
  }

  /** Whether some fetched row carries this id. */
  predicate Fetched(found: seq<Product>, id: int)
  {
    exists j :: 0 <= j < |found| && found[j].id == id
  }

  /** The requested ids without a fetched product, in request order, duplicates kept. */
  function MissingIds(ids: seq<int>, found: seq<Product>): (r: seq<int>)
    ensures forall k :: 0 <= k < |r| ==> r[k] in ids && !Fetched(found, r[k])
    ensures forall id :: id in ids && !Fetched(found, id) ==> id in r
    ensures forall id :: multiset(r)[id] == if Fetched(found, id) then 0 else multiset(ids)[id]
    ensures |ids| == 1 ==> r == if Fetched(found, ids[0]) then [] else ids
  {
    if |ids| == 0 then []
    else
      var rest := MissingIds(ids[1..], found);
      assert forall k :: 1 <= k < |ids| ==> ids[k] == ids[1..][k - 1];
      assert ids == [ids[0]] + ids[1..];
      if Fetched(found, ids[0]) then rest else [ids[0]] + rest
  }

  /** The missing ids of a concatenation are those of each part, in order. */
  lemma {:induction false} MissingIdsAppend(a: seq<int>, b: seq<int>, found: seq<Product>)
    ensures MissingIds(a + b, found) == MissingIds(a, found) + MissingIds(b, found)
    decreases |a|
  {
    if |a| == 0 {
      assert a + b == b;
    } else {
      var ab := a + b;
      assert ab[0] == a[0] && ab[1..] == a[1..] + b;
      MissingIdsAppend(a[1..], b, found);
      var rest := MissingIds(a[1..], found);
      if Fetched(found, a[0]) {
        assert MissingIds(ab, found) == MissingIds(ab[1..], found);
        assert MissingIds(a, found) == rest;
      } else {
        assert MissingIds(ab, found) == [a[0]] + MissingIds(ab[1..], found);
        assert MissingIds(a, found) == [a[0]] + rest;
      }
    }
  }

  /** The id-to-product map built from the fetched rows; a later row wins. */
  function ProductMap(found: seq<Product>): (m: map<int, Product>)
    ensures forall k :: k in m <==> exists j :: 0 <= j < |found| && found[j].id == k
    ensures forall k :: k in m ==> m[k] in found && m[k].id == k
  {
    if |found| == 0 then map[]
    else
      var last := found[|found| - 1];
      var m := ProductMap(found[..|found| - 1]);
      assert forall j :: 0 <= j < |found| - 1 ==> found[j] == found[..|found| - 1][j];
      m[last.id := last]
  }

  /** The item passes the stock check against the snapshot. */
  predicate Stocked(it: PurchaseItem, snapshot: map<int, Product>)
  {
    it.productId in snapshot && snapshot[it.productId].stock >= it.amount
  }

  /** The index of the first item from `i` on that the snapshot cannot supply, or `|items|` when there is none. */
  function FirstUnstocked(items: seq<PurchaseItem>, snapshot: map<int, Product>, i: nat): (k: nat)
    requires i <= |items|
    ensures i <= k <= |items|
    ensures forall j :: i <= j < k ==> Stocked(items[j], snapshot)
    ensures k < |items| ==> !Stocked(items[k], snapshot)
    decreases |items| - i
  {
    if i == |items| || !Stocked(items[i], snapshot) then i else FirstUnstocked(items, snapshot, i + 1)
  }

  /** The error the stock check raises for an item that fails it. */
  function StockError(it: PurchaseItem, snapshot: map<int, Product>): Error
  {
    if it.productId !in snapshot then InternalError(SnapshotMissing)
    else InsufficientStock(snapshot[it.productId].name)
  }

  /** The price of one line at the snapshot's price. */
  function LinePrice(it: PurchaseItem, snapshot: map<int, Product>): int
  {
    if it.productId in snapshot then snapshot[it.productId].price * it.amount else 0
  }

  /** The sum of price times amount over the items. */
  function SumPrices(items: seq<PurchaseItem>, snapshot: map<int, Product>): int
  {
    if |items| == 0 then 0 else LinePrice(items[0], snapshot) + SumPrices(items[1..], snapshot)
  }

  /**
   The stock check and price accumulation over items `i..`: the first item
   without enough snapshot stock stops it; otherwise it returns `total` plus
   the price of those items.
   */
  function CheckStock(items: seq<PurchaseItem>, snapshot: map<int, Product>, i: nat, total: int)
    : (r: Result<int, Error>)
    requires i <= |items|
    ensures r.Success? <==> forall j :: i <= j < |items| ==> Stocked(items[j], snapshot)
    ensures r.Success? ==> r.value == total + SumPrices(items[i..], snapshot)
    ensures r.Failure? ==> r.error == StockError(items[FirstUnstocked(items, snapshot, i)], snapshot)
    decreases |items| - i
  {
    if i == |items| then Success(total)
    else
      var it := items[i];
      if it.productId !in snapshot then Failure(InternalError(SnapshotMissing))
      else
        var p := snapshot[it.productId];
        if p.stock < it.amount then Failure(InsufficientStock(p.name))
        else
          assert items[i..][1..] == items[i + 1..];
          CheckStock(items, snapshot, i + 1, total + p.price * it.amount)
  }

  /** How far the per-line writes of a purchase got. */
  datatype LinesOutcome =
    | AllApplied              // every line written and every decrement committed
    | ItemFailed(index: nat)  // the line at `index` could not be written
    | StockFailed(index: nat) // the line at `index` was written but its decrement refused

  /**
   The per-line loop from item `i` on: write the line with the snapshot price,
   then decrement the stock; stop at the first failure, keeping every earlier
   write.
   */
  function ApplyLines(st: Store, orderId: int, items: seq<PurchaseItem>, snapshot: map<int, Product>, i: nat)
    : (r: (LinesOutcome, Store))
    requires i <= |items|
    ensures r.0.ItemFailed? ==> i <= r.0.index < |items|
    ensures r.0.StockFailed? ==> i <= r.0.index < |items|
    ensures r.1 == st.(links := r.1.links, products := r.1.products)
    ensures |st.links| <= |r.1.links| && r.1.links[..|st.links|] == st.links
    ensures r.1.products.Keys == st.products.Keys
    ensures forall k :: k in st.products ==> r.1.products[k] == st.products[k].(stock := r.1.products[k].stock)
    decreases |items| - i
  {
    if i == |items| then (AllApplied, st)
    else
      var it := items[i];
      if it.productId !in snapshot then (ItemFailed(i), st)
      else
        match AddProductToClientOrder(st, orderId, it.productId, it.amount, snapshot[it.productId].price)
        case (Failure(_), st1) => (ItemFailed(i), st1)
        case (Success(_), st1) =>
          var (ok, st2) := UpdateProductStock(st1, it.productId, it.amount);
          if !ok then (StockFailed(i), st2)
          else
            var r := ApplyLines(st2, orderId, items, snapshot, i + 1);
            assert r.1.links[..|st.links|] == r.1.links[..|st2.links|][..|st.links|];
            r
  }

  /**
   Creates a confirmed purchase order: fetch the products in one batch, check
   stock and price every item against that snapshot, write the order, then
   write each line and decrement its stock. No step is undone when a later
   one fails.
   */
  function CreatePurchaseOrder(s: Store, userId: int, items: seq<PurchaseItem>, now: nat)
    : (r: (Result<int, Error>, Store))
    ensures r.0.Failure? && r.0.error.ProductsNotFound? ==> r.1 == s
    ensures r.0.Failure? && r.0.error.InsufficientStock? ==> r.1 == s
    ensures r.0.Success? ==> r.0.value == s.nextOrderId && r.1.nextOrderId == s.nextOrderId + 1
    ensures r.0.Success? ==> |r.1.orders| == |s.orders| + 1 && r.1.orders[..|s.orders|] == s.orders
    ensures r.0.Success? ==> r.1.orders[|s.orders|].id == s.nextOrderId && r.1.orders[|s.orders|].clientId == userId
                             && r.1.orders[|s.orders|].status == Confirmed && r.1.orders[|s.orders|].createdAt == now
  {
    var ids := ProductIds(items);
    var found := GetProductsByIds(s, ids);
    if |found| != |ToSet(ids)| then
      (Failure(ProductsNotFound(MissingIds(ids, found))), s)
    else
      var snapshot := ProductMap(found);
      match CheckStock(items, snapshot, 0, 0)
      case Failure(e) => (Failure(e), s)
      case Success(total) =>
        var (orderId, s1) := CreateClientOrder(s, userId, total, Confirmed, now);
        if orderId == 0 then (Failure(InternalError(OrderRecordMissing)), s1)
        else
          var (outcome, s2) := ApplyLines(s1, orderId, items, snapshot, 0);
          match outcome
          case AllApplied => (Success(orderId), s2)
          case ItemFailed(_) => (Failure(OrderItemsFailed), s2)
          case StockFailed(k) => (Failure(StockUpdateFailed(items[k].productId)), s2)
  }

  // ---------------------------------------------------------------------------
  // Custom orders
  // ---------------------------------------------------------------------------

  /**
   Creates a custom (quote) order as its documentation describes: a product
   with price 0 and stock 1 and no supplier, read back as the newest product
   with that name; a CUSTOM_PENDING order with total 0; one line for that
   product with amount 1 and unit price 0.
   */
  function CreateCustomOrder(s: Store, userId: int, name: string, description: string, now: nat)
    : (r: (Result<int, Error>, Store))
    ensures r.0.Failure? ==> r.0.error.InternalError?
    ensures r.0.Success? ==> r.0.value == s.nextOrderId
    ensures r.1.products == s.products[s.nextProductId := Product(s.nextProductId, name, description, 0, 1, None)]
  {
    var (_, s1) := CreateProduct(s, name, description, 0, 1, None);
    match NewestProductByName(s1.products, name, s1.nextProductId)
    case None => (Failure(InternalError(CustomProductMissing)), s1)
    case Some(p) =>
      if p.id == 0 then (Failure(InternalError(CustomProductMissing)), s1)
      else
        var (orderId, s2) := CreateClientOrder(s1, userId, 0, CustomPending, now);
        if orderId == 0 then (Failure(InternalError(CustomOrderMissing)), s2)
        else
          match AddProductToClientOrder(s2, orderId, p.id, 1, 0)
          case (Failure(_), s3) => (Failure(InternalError(CustomLinkFailed)), s3)
          case (Success(_), s3) => (Success(orderId), s3)
  }

  /**
   Custom-order creation as the code stands: the product-creation body is
   built with no supplier id, which its schema refuses, so the request fails
   before any write. Were it accepted, the product would be committed and
   the next statement would fail on names the module never imports.
   */
  function CreateCustomOrderAsWritten(s: Store, userId: int, name: string, description: string, now: nat)
    : (r: (Result<int, Error>, Store))
    ensures r.0.Failure? && r.0.error.InternalError?
    ensures r.1 == s
  {
    match ValidateProductCreate(name, description, 0, 1, None)
    case Failure(_) => (Failure(InternalError(ProductSchemaRejected)), s)
    case Success(pc) =>
      var (_, s1) := CreateProduct(s, pc.name, pc.description, pc.price, pc.stock, Some(pc.supplierId));
      (Failure(InternalError(UndefinedName)), s1)
  }

  // Sequence helpers used by the proofs above.

  /** A non-empty sequence, alone or followed by another, is its first element and then the rest. */
  lemma SplitHead<T>(a: seq<T>, b: seq<T>)
    requires |a| > 0
    ensures a == [a[0]] + a[1..]
    ensures a + b == [a[0]] + (a[1..] + b)
  {
  }

  /** Prefixing a common head commutes with appending a tail. */
  lemma HeadThenAppend<T>(whole: seq<T>, part: seq<T>, h: seq<T>, x: seq<T>, y: seq<T>, w: seq<T>)
    requires whole == h + w && w == x + y && part == h + x
    ensures whole == part + y
  {
    assert h + (x + y) == (h + x) + y;
  }
}
