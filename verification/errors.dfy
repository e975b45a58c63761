/**
 The error kinds raised by the order services, one constructor per distinct
 `HTTPException` (or per exception the routes turn into a 500 response).
 */
module Errors {

  /** Where an internal (status 500) failure was raised. */
  datatype InternalSite =
    | SnapshotMissing        // a checked item has no entry in the product snapshot
    | OrderRecordMissing     // the created purchase order came back without an id
    | CustomProductMissing   // the custom product could not be read back by name
    | CustomOrderMissing     // the created custom order came back without an id
    | CustomLinkFailed       // the custom order line could not be written
    | ProductSchemaRejected  // the product-creation schema refused its input
    | UndefinedName          // a name the module never imports was evaluated

  datatype Error =
    | UserNotFound                          // the gate could not resolve the user id
    | AdminRequired                         // the user has no "admin" role
    | ProductsNotFound(missing: seq<int>)   // requested product ids with no stored row
    | InsufficientStock(productName: string)
    | OrderNotFound                         // no visible client order with that id
    | NotCustom                             // the order has no zero-priced line
    | SupplierOrderNotFound
    | StockUpdateFailed(productId: int)     // conditional decrement refused; order partially processed
    | OrderItemsFailed                      // any other failure while writing lines and stock
    | InternalError(site: InternalSite)

  /** The HTTP status code each error is reported with. */
  function StatusCode(e: Error): (code: int)
    ensures code == 401 <==> e.UserNotFound?
    ensures code == 403 <==> e.AdminRequired?
    ensures code == 400 <==> e.InsufficientStock?
    ensures code == 404 <==> e.ProductsNotFound? || e.OrderNotFound? || e.NotCustom? || e.SupplierOrderNotFound?
    ensures code == 500 <==> e.StockUpdateFailed? || e.OrderItemsFailed? || e.InternalError?
  {
    match e
    case UserNotFound => 401
    case AdminRequired => 403
    case ProductsNotFound(_) => 404
    case InsufficientStock(_) => 400
    case OrderNotFound => 404
    case NotCustom => 404
    case SupplierOrderNotFound => 404
    case StockUpdateFailed(_) => 500
    case OrderItemsFailed => 500
    case InternalError(_) => 500
  }
}
