/**
 Request bodies with the validation constraints their fields declare, and the
 response shapes the order services assemble.
 */
module Schemas {
  import opened Wrappers
  import opened Models

  /** One requested product of a purchase: the id must be at least 1, the amount positive. */
  datatype PurchaseItem = PurchaseItem(productId: int, amount: int)

  /** A field constraint violated by a request body. */
  datatype SchemaError =
    | EmptyProducts                  // the purchase list has no items
    | ProductIdBelowOne(index: nat)  // item `index` has product_id < 1
    | AmountNotPositive(index: nat)  // item `index` has amount <= 0
    | NameTooShort                   // custom product name shorter than 3
    | DescriptionTooShort            // custom product description shorter than 5
    | SupplierIdMissing              // product creation without an integer supplier id

  /** The violations found in items `i..` of a purchase list, in field order. */
  function ItemErrors(items: seq<PurchaseItem>, i: nat): (errs: seq<SchemaError>)
    requires i <= |items|
    ensures forall j :: i <= j < |items| ==> (ProductIdBelowOne(j) in errs <==> items[j].productId < 1)
    ensures forall j :: i <= j < |items| ==> (AmountNotPositive(j) in errs <==> items[j].amount <= 0)
    ensures forall e :: e in errs ==>
      (e.ProductIdBelowOne? || e.AmountNotPositive?) && i <= e.index < |items|
    decreases |items| - i
  {
    if i == |items| then []
    else
      var it := items[i];
      (if it.productId < 1 then [ProductIdBelowOne(i)] else [])
      + (if it.amount <= 0 then [AmountNotPositive(i)] else [])
      + ItemErrors(items, i + 1)
  }

  /** Every violation of a purchase request body (an empty list, bad ids, bad amounts). */
  function PurchaseRequestErrors(items: seq<PurchaseItem>): (errs: seq<SchemaError>)
    ensures EmptyProducts in errs <==> |items| == 0
    ensures forall j :: 0 <= j < |items| ==> (ProductIdBelowOne(j) in errs <==> items[j].productId < 1)
    ensures forall j :: 0 <= j < |items| ==> (AmountNotPositive(j) in errs <==> items[j].amount <= 0)
    ensures forall e :: e in errs ==> e.EmptyProducts? || ((e.ProductIdBelowOne? || e.AmountNotPositive?) && e.index < |items|)
  {
    (if |items| == 0 then [EmptyProducts] else []) + ItemErrors(items, 0)
  }

  /** A purchase request the API accepts. */
  predicate ValidPurchaseRequest(items: seq<PurchaseItem>)
  {
    PurchaseRequestErrors(items) == []
  }

  /** An accepted purchase request is non-empty and each item has id >= 1 and amount > 0. */
  lemma ValidPurchaseRequestMeans(items: seq<PurchaseItem>)
    ensures ValidPurchaseRequest(items) <==>
      |items| >= 1 && forall j :: 0 <= j < |items| ==> items[j].productId >= 1 && items[j].amount > 0
  {
    var errs := PurchaseRequestErrors(items);
    if !ValidPurchaseRequest(items) {
      var e := errs[0];
      assert e in errs;
    }
  }

  /** Violations of a custom product request: name of at least 3, description of at least 5 characters. */
  function CustomProductErrors(name: string, description: string): (errs: seq<SchemaError>)
    ensures errs == [] <==> |name| >= 3 && |description| >= 5
    ensures NameTooShort in errs <==> |name| < 3
    ensures DescriptionTooShort in errs <==> |description| < 5
  {
    (if |name| < 3 then [NameTooShort] else []) + (if |description| < 5 then [DescriptionTooShort] else [])
  }

  /** A validated product-creation body; its supplier id is a required integer. */
  datatype ProductCreate = ProductCreate(
    name: string, description: string, price: int, stock: int, supplierId: int)

  /** Builds a product-creation body; an absent supplier id is rejected. */
  function ValidateProductCreate(name: string, description: string, price: int, stock: int,
                                 supplierId: Option<int>): (r: Result<ProductCreate, SchemaError>)
    ensures r.Failure? <==> supplierId.None?
    ensures r.Failure? ==> r.error == SupplierIdMissing
    ensures r.Success? ==> r.value == ProductCreate(name, description, price, stock, supplierId.value)
  {
    match supplierId
    case None => Failure(SupplierIdMissing)
    case Some(sid) => Success(ProductCreate(name, description, price, stock, sid))
  }

  /** One line of an order as shown to the client. */
  datatype ProductInOrder = ProductInOrder(productId: int, name: string, amount: int, unitPrice: int)

  /** An order with its lines. */
  datatype ClientOrderDetails = ClientOrderDetails(order: ClientOrder, products: seq<ProductInOrder>)

  /** A supplier order with the names of its supplier and product, when those rows exist. */
  datatype SupplierOrderDetails = SupplierOrderDetails(
    order: SupplierOrder, supplierName: Option<string>, productName: Option<string>)

  /** One page of a listing together with the size of the whole listing. */
  datatype PaginatedResponse<T> = PaginatedResponse(
    page: int, pageSize: int, totalItems: nat, totalPages: int, items: seq<T>)
}
