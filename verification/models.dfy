/**
 The persisted entities of the order subsystem and the in-memory store that
 stands for the database. Prices are integer cents and timestamps are abstract
 natural numbers, so rounding to two decimals and clock reads disappear.
 */
module Models {
  import opened Wrappers

  /** The seven states a client order may be in; stored as its string value. */
  datatype OrderStatus =
    | Pending
    | Confirmed
    | Canceled
    | Processing
    | Shipped
    | Delivered
    | CustomPending

  /** The string each status is stored and transmitted as. */
  function StatusValue(st: OrderStatus): string
  {
    match st
    case Pending => "pending"
    case Confirmed => "confirmed"
    case Canceled => "canceled"
    case Processing => "processing"
    case Shipped => "shipped"
    case Delivered => "delivered"
    case CustomPending => "custom_pending"
  }

  /** Every status, each once. */
  const AllStatuses: seq<OrderStatus> :=
    [Pending, Confirmed, Canceled, Processing, Shipped, Delivered, CustomPending]

  /** Reads a stored status string back into the enumeration. */
  function ParseStatus(v: string): (r: Option<OrderStatus>)
    ensures r.Some? ==> StatusValue(r.value) == v
    ensures r.None? <==> forall st: OrderStatus :: StatusValue(st) != v
  {
    if v == "pending" then Some(Pending)
    else if v == "confirmed" then Some(Confirmed)
    else if v == "canceled" then Some(Canceled)
    else if v == "processing" then Some(Processing)
    else if v == "shipped" then Some(Shipped)
    else if v == "delivered" then Some(Delivered)
    else if v == "custom_pending" then Some(CustomPending)
    else None
  }

  /** The enumeration has exactly seven members with pairwise different values. */
  lemma StatusEnumeration(st: OrderStatus)
    ensures |AllStatuses| == 7
    ensures st in AllStatuses
    ensures forall i, j :: 0 <= i < j < |AllStatuses| ==>
      StatusValue(AllStatuses[i]) != StatusValue(AllStatuses[j])
    ensures ParseStatus(StatusValue(st)) == Some(st)
  {
  }

  /** A catalog product; `supplierId` is None for custom (quote) products. */
  datatype Product = Product(
    id: int,
    name: string,
    description: string,
    price: int,
    stock: int,
    supplierId: Option<int>)

  /** The product table: every row is stored under its own primary key. */
  type ProductTable = m: map<int, Product> | forall k :: k in m ==> m[k].id == k
    witness map[]

  datatype Role = Role(title: string)

  /** A user with the roles loaded alongside it. */
  datatype User = User(roles: seq<Role>)

  datatype Supplier = Supplier(name: string)

  /** A client order row. */
  datatype ClientOrder = ClientOrder(
    id: int,
    clientId: int,
    totalPrice: int,
    status: OrderStatus,
    createdAt: nat,
    updatedAt: nat)

  /** A row of the link table between client orders and products. */
  datatype OrderLine = OrderLine(orderId: int, productId: int, amount: int, unitPrice: int)

  /** A restocking order placed with a supplier; its status is free text. */
  datatype SupplierOrder = SupplierOrder(
    id: int,
    supplierId: int,
    productId: int,
    amount: int,
    totalPrice: int,
    status: string,
    createdAt: nat,
    updatedAt: nat)

  const DefaultOrderStatus: OrderStatus := Pending
  const DefaultOrderTotal: int := 0
  const DefaultLineAmount: int := 1
  const DefaultSupplierOrderStatus: string := "placed"
  const DefaultSupplierOrderAmount: int := 1

  /**
   A client order row as the database materialises it at time `now`: fields
   left out (None) take their column defaults, both timestamps are `now`.
   */
  function NewClientOrder(id: int, clientId: int, totalPrice: Option<int>,
                          status: Option<OrderStatus>, now: nat): (o: ClientOrder)
    ensures o.id == id && o.clientId == clientId
    ensures totalPrice.None? ==> o.totalPrice == 0
    ensures totalPrice.Some? ==> o.totalPrice == totalPrice.value
    ensures status.None? ==> o.status == Pending
    ensures status.Some? ==> o.status == status.value
    ensures o.createdAt == now && o.updatedAt == now
  {
    ClientOrder(id, clientId, totalPrice.GetOr(DefaultOrderTotal),
                status.GetOr(DefaultOrderStatus), now, now)
  }

  /** A link row; the amount defaults to 1 and the unit price has no default. */
  function NewOrderLine(orderId: int, productId: int, amount: Option<int>, unitPrice: int): (l: OrderLine)
    ensures l.orderId == orderId && l.productId == productId && l.unitPrice == unitPrice
    ensures amount.None? ==> l.amount == 1
    ensures amount.Some? ==> l.amount == amount.value
  {
    OrderLine(orderId, productId, amount.GetOr(DefaultLineAmount), unitPrice)
  }

  /** A supplier order row; status defaults to "placed" and amount to 1. */
  function NewSupplierOrder(id: int, supplierId: int, productId: int, amount: Option<int>,
                            totalPrice: int, status: Option<string>, now: nat): (o: SupplierOrder)
    ensures o.id == id && o.supplierId == supplierId && o.productId == productId
    ensures o.totalPrice == totalPrice
    ensures amount.None? ==> o.amount == 1
    ensures amount.Some? ==> o.amount == amount.value
    ensures status.None? ==> o.status == "placed"
    ensures status.Some? ==> o.status == status.value
    ensures o.createdAt == now && o.updatedAt == now
  {
    SupplierOrder(id, supplierId, productId, amount.GetOr(DefaultSupplierOrderAmount), totalPrice,
                  status.GetOr(DefaultSupplierOrderStatus), now, now)
  }

  /**
   The database: one component per table, plus the next values the
   autoincrementing primary keys of the product and client-order tables hand out.
   */
  datatype Store = Store(
    products: ProductTable,
    users: map<int, User>,
    suppliers: map<int, Supplier>,
    orders: seq<ClientOrder>,
    links: seq<OrderLine>,
    supplierOrders: seq<SupplierOrder>,
    nextProductId: int,
    nextOrderId: int)

  /** Client-order ids are strictly increasing along the table. */
  predicate OrderIdsIncreasing(orders: seq<ClientOrder>)
  {
    forall i, j :: 0 <= i < j < |orders| ==> orders[i].id < orders[j].id
  }

  /** No two link rows share the composite key (order id, product id). */
  predicate LinesKeyed(links: seq<OrderLine>)
  {
    forall i, j :: 0 <= i < j < |links| ==>
      links[i].orderId != links[j].orderId || links[i].productId != links[j].productId
  }

  /** Whether a link row with the key (orderId, productId) exists. */
  predicate HasLine(links: seq<OrderLine>, orderId: int, productId: int)
  {
    exists i :: 0 <= i < |links| && links[i].orderId == orderId && links[i].productId == productId
  }

  /** Every stored stock level is non-negative. */
  predicate StocksNonNegative(products: ProductTable)
  {
    forall k :: k in products ==> products[k].stock >= 0
  }

  /**
   The database invariants the operations rely on: autoincrement keys start
   at 1 and stay ahead of every stored key, client orders are unique by id,
   links reference already-issued order ids and respect their composite key.
   */
  predicate Valid(s: Store)
  {
    && 1 <= s.nextOrderId
    && 1 <= s.nextProductId
    && (forall k :: k in s.products ==> 1 <= k < s.nextProductId)
    && (forall i :: 0 <= i < |s.orders| ==> 1 <= s.orders[i].id < s.nextOrderId)
    && OrderIdsIncreasing(s.orders)
    && (forall i :: 0 <= i < |s.links| ==> s.links[i].orderId < s.nextOrderId)
    && LinesKeyed(s.links)
  }

  function CreatedAt(o: ClientOrder): nat { o.createdAt }

  function SupplierCreatedAt(o: SupplierOrder): nat { o.createdAt }
}
