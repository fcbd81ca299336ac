/**
 * Cart admission and the cart-line handlers of `services/order/handler.go`.
 * The router fills in the user id from the token and, for a new line, the
 * status IN_CART and the source "cart"; here they arrive inside the order.
 */
module OrderHandler {
  import opened Wrappers
  import opened Http
  import opened Store

  /** A user may own at most this many rows before admission refuses. */
  const CartLimit := 20

  const InvalidInput := "Bad Request: Invalid input data"
  const CartLimitExceeded := "Cart Limit Exceeded: Please remove items to proceed."
  const InsufficientStock := "Insufficient stock for items "

  /** `SELECT * FROM orders where user_id = $1`: the user's rows, whatever their status. */
  function RowsOfUser(os: seq<Order>, userId: string): (r: seq<Order>)
    ensures |r| <= |os|
    ensures forall o :: o in r <==> o in os && o.userId == userId
  {
    if os == [] then []
    else (if os[0].userId == userId then [os[0]] else []) + RowsOfUser(os[1..], userId)
  }

  /**
   * The count query counts each of the user's rows once: the rows it sees
   * are the user's rows with their multiplicities, and no others.
   */
  lemma {:induction false} RowsOfUserCounted(os: seq<Order>, userId: string)
    ensures forall o :: multiset(RowsOfUser(os, userId))[o] == if o.userId == userId then multiset(os)[o] else 0
  {
    if os != [] {
      assert os == [os[0]] + os[1..];
      RowsOfUserCounted(os[1..], userId);
    }
  }

  /** `SELECT stock FROM products where id=$1`; None when no row comes back. */
  function StockOf(ps: seq<Product>, productId: string): (r: Option<int>)
    ensures r.None? <==> productId !in ProductIds(ps)
    ensures r.Some? ==> exists p :: p in ps && p.id == productId && p.stock == r.value
  {
    match FindProduct(ps, productId)
    case None => None
    case Some(i) => Some(ps[i].stock)
  }

  /** Index of the row that the unique pair (product_id, user_id) names. */
  function FindLine(os: seq<Order>, productId: string, userId: string): (r: Option<nat>)
    ensures r.Some? ==> r.value < |os| && os[r.value].productId == productId && os[r.value].userId == userId
    ensures r.None? <==> forall i :: 0 <= i < |os| ==> os[i].productId != productId || os[i].userId != userId
  {
    if os == [] then None
    else if os[0].productId == productId && os[0].userId == userId then Some(0)
    else match FindLine(os[1..], productId, userId)
      case None => None
      case Some(i) => Some(i + 1)
  }

  /** `UPDATE orders SET quantity=@quantity where product_id=@productId AND user_id=@userId`. */
  function SetQuantity(os: seq<Order>, productId: string, userId: string, quantity: int): (r: seq<Order>)
    ensures |r| == |os|
    ensures forall i :: 0 <= i < |os| ==>
      r[i] == if os[i].productId == productId && os[i].userId == userId
              then os[i].(quantity := quantity) else os[i]
  {
    if os == [] then []
    else
      var head := if os[0].productId == productId && os[0].userId == userId
                  then os[0].(quantity := quantity) else os[0];
      [head] + SetQuantity(os[1..], productId, userId, quantity)
  }

  /**
   * The UPDATE of `updateOrder`: note, source, status and quantity taken from
   * `line` on every row whose (product_id, user_id) is the line's. The line's
   * own id plays no part in which row changes.
   */
  function OverwriteLine(os: seq<Order>, line: Order): (r: seq<Order>)
    ensures |r| == |os|
    ensures forall i :: 0 <= i < |os| ==>
      r[i] == if os[i].productId == line.productId && os[i].userId == line.userId
              then os[i].(note := line.note, purchaseSource := line.purchaseSource,
                          purchaseStatus := line.purchaseStatus, quantity := line.quantity)
              else os[i]
  {
    if os == [] then []
    else
      var head := if os[0].productId == line.productId && os[0].userId == line.userId
                  then os[0].(note := line.note, purchaseSource := line.purchaseSource,
                              purchaseStatus := line.purchaseStatus, quantity := line.quantity)
                  else os[0];
      [head] + OverwriteLine(os[1..], line)
  }

  /** An update whose (product, user) pair names no row leaves the table as it was. */
  lemma OverwriteUnmatched(os: seq<Order>, line: Order)
    requires FindLine(os, line.productId, line.userId).None?
    ensures OverwriteLine(os, line) == os
  {
  }

  /** Appending a row with an unused id and an unused (product, user) pair keeps the constraints. */
  lemma AppendKeepsOrdersOk(os: seq<Order>, o: Order)
    requires OrdersOk(os) && o.id !in OrderIds(os) && o.quantity > 0
    requires FindLine(os, o.productId, o.userId).None?
    ensures OrdersOk(os + [o])
  {
    forall i | 0 <= i < |os|
      ensures os[i].id != o.id
    {
      assert os[i] in os;
    }
  }

  /** The primary key: no other row carries the id of row `i`. */
  lemma OnlyRowWithId(os: seq<Order>, i: nat)
    requires OrdersOk(os) && i < |os|
    ensures forall o :: o in os && o.id == os[i].id ==> o == os[i]
  {
    forall o | o in os && o.id == os[i].id
      ensures o == os[i]
    {
      var j :| 0 <= j < |os| && os[j] == o;
      assert j == i;
    }
  }

  ghost predicate InputOk(o: Order, isUuid: string -> bool) {
    o.quantity > 0 && isUuid(o.productId)
  }

  /** The input is valid and the count query finds room in the cart. */
  ghost predicate PassesCount(os: seq<Order>, o: Order, isUuid: string -> bool, fault: Fault) {
    InputOk(o, isUuid) && !fault.Fails(1) && |RowsOfUser(os, o.userId)| < CartLimit
  }

  /** Also the stock query finds the product with at least the requested quantity. */
  ghost predicate PassesStock(os: seq<Order>, ps: seq<Product>, o: Order, isUuid: string -> bool, fault: Fault) {
    && PassesCount(os, o, isUuid, fault)
    && !fault.Fails(2)
    && StockOf(ps, o.productId).Some?
    && o.quantity <= StockOf(ps, o.productId).value
  }

  /**
   * `addToOrder`: checks the input, then the number of rows the user owns,
   * then the product's stock, then inserts the line with a fresh id; when the
   * (product, user) pair is taken it overwrites that row's quantity instead.
   * `freshId` is what `uuid.New` returns.
   */
  method AddToOrder(db: Database, newOrder: Order, isUuid: string -> bool, freshId: string, fault: Fault)
      returns (r: Response<Order>)
    requires db.Valid()
    requires freshId !in OrderIds(db.orders)
    modifies db`orders
    ensures db.Valid()
    ensures !r.Succeeded() ==> db.orders == old(db.orders)
    ensures r == Failed(400, InvalidInput) <==> !InputOk(newOrder, isUuid)
    ensures r == Failed(400, CartLimitExceeded) <==>
      InputOk(newOrder, isUuid) && !fault.Fails(1) && |RowsOfUser(old(db.orders), newOrder.userId)| >= CartLimit
    ensures r == Failed(400, InsufficientStock) <==>
      && PassesCount(old(db.orders), newOrder, isUuid, fault)
      && !fault.Fails(2)
      && StockOf(db.products, newOrder.productId).Some?
      && newOrder.quantity > StockOf(db.products, newOrder.productId).value
    ensures r.Succeeded() <==>
      && PassesStock(old(db.orders), db.products, newOrder, isUuid, fault)
      && !fault.Fails(3)
      && (FindLine(old(db.orders), newOrder.productId, newOrder.userId).Some? ==> !fault.Fails(4))
    ensures r.Succeeded() || r == Failed(500, Internal) || r == Failed(400, InvalidInput)
      || r == Failed(400, CartLimitExceeded) || r == Failed(400, InsufficientStock)
    ensures r.Succeeded() ==> r.data == Some(newOrder.(id := freshId))
    ensures r.Succeeded() && FindLine(old(db.orders), newOrder.productId, newOrder.userId).None? ==>
      db.orders == old(db.orders) + [newOrder.(id := freshId)]
    ensures r.Succeeded() && FindLine(old(db.orders), newOrder.productId, newOrder.userId).Some? ==>
      db.orders == SetQuantity(old(db.orders), newOrder.productId, newOrder.userId, newOrder.quantity)
  {
    if newOrder.quantity <= 0 || !isUuid(newOrder.productId) {
      return Failed(400, InvalidInput);
    }
    // SELECT count(*) FROM orders where user_id=$1
    if fault.Fails(1) {
      return Failed(500, Internal);
    }
    var count := |RowsOfUser(db.orders, newOrder.userId)|;
    if count >= CartLimit {
      return Failed(400, CartLimitExceeded);
    }
    // SELECT stock FROM products where id=$1
    if fault.Fails(2) {
      return Failed(500, Internal);
    }
    var stock := StockOf(db.products, newOrder.productId);
    if stock.None? {
      return Failed(500, Internal);
    }
    if newOrder.quantity > stock.value {
      return Failed(400, InsufficientStock);
    }
    r := InsertLine(db, newOrder.(id := freshId), fault);
  }

  /**
   * The INSERT of `addToOrder` and its fallback: a taken (product, user) pair
   * makes the insert fail on orders_product_id_user_id_key, and the handler
   * then overwrites that row's quantity.
   */
  method InsertLine(db: Database, created: Order, fault: Fault) returns (r: Response<Order>)
    requires db.Valid() && created.quantity > 0
    requires created.id !in OrderIds(db.orders)
    modifies db`orders
    ensures db.Valid()
    ensures r.Succeeded() <==>
      !fault.Fails(3) && (FindLine(old(db.orders), created.productId, created.userId).Some? ==> !fault.Fails(4))
    ensures !r.Succeeded() ==> r == Failed(500, Internal) && db.orders == old(db.orders)
    ensures r.Succeeded() ==> r.data == Some(created)
    ensures r.Succeeded() && FindLine(old(db.orders), created.productId, created.userId).None? ==>
      db.orders == old(db.orders) + [created]
    ensures r.Succeeded() && FindLine(old(db.orders), created.productId, created.userId).Some? ==>
      db.orders == SetQuantity(old(db.orders), created.productId, created.userId, created.quantity)
  {
    // INSERT INTO orders (...) VALUES (...)
    if fault.Fails(3) {
      return Failed(500, Internal);
    }
    if FindLine(db.orders, created.productId, created.userId).Some? {
      // the insert broke orders_product_id_user_id_key: overwrite the quantity instead
      if fault.Fails(4) {
        return Failed(500, Internal);
      }
      var updated := SetQuantity(db.orders, created.productId, created.userId, created.quantity);
      RewriteKeepsOrdersOk(db.orders, updated);
      db.orders := updated;
      return Ok(created);
    }
    AppendKeepsOrdersOk(db.orders, created);
    db.orders := db.orders + [created];
    return Ok(created);
  }

  /**
   * `updateOrder`: checks the quantity and the id's form, then overwrites the
   * line that (product, user) names, without a stock check; success is
   * reported whether or not a row matched.
   */
  method UpdateOrder(db: Database, newOrder: Order, isUuid: string -> bool, fault: Fault)
      returns (r: Response<Order>)
    requires db.Valid()
    modifies db`orders
    ensures db.Valid()
    ensures r == Failed(400, InvalidInput) <==> newOrder.quantity <= 0 || !isUuid(newOrder.id)
    ensures r.Succeeded() <==> newOrder.quantity > 0 && isUuid(newOrder.id) && !fault.Fails(1)
    ensures r.Succeeded() || r == Failed(400, InvalidInput) || r == Failed(500, Internal)
    ensures r.Succeeded() ==> r.data == Some(newOrder) && db.orders == OverwriteLine(old(db.orders), newOrder)
    ensures !r.Succeeded() ==> db.orders == old(db.orders)
  {
    if newOrder.quantity <= 0 || !isUuid(newOrder.id) {
      return Failed(400, InvalidInput);
    }
    if fault.Fails(1) {
      return Failed(500, Internal);
    }
    var updated := OverwriteLine(db.orders, newOrder);
    RewriteKeepsOrdersOk(db.orders, updated);
    db.orders := updated;
    return Ok(newOrder);
  }

  /** `getMyOrders`: every row of the user, of any status, once the user id is a UUID. */
  function GetMyOrders(db: Database, userId: string, isUuid: string -> bool, fault: Fault): (r: Response<seq<Order>>)
    reads db
    ensures !isUuid(userId) ==> r == Failed(400, InvalidInput)
    ensures isUuid(userId) && !fault.Healthy? ==> r == Failed(500, Internal)
    ensures r.Succeeded() <==> isUuid(userId) && fault.Healthy?
    ensures r.Succeeded() ==> r.data.Some? && forall o :: o in r.data.value <==> o in db.orders && o.userId == userId
    ensures r.Succeeded() ==> (r.data.Some? &&
      forall o :: multiset(r.data.value)[o] == if o.userId == userId then multiset(db.orders)[o] else 0)
  {
    if !isUuid(userId) then Failed(400, InvalidInput)
    else if !fault.Healthy? then Failed(500, Internal)
    else
      RowsOfUserCounted(db.orders, userId);
      Ok(RowsOfUser(db.orders, userId))
  }

  /**
   * `getMyOrderById`: the row with this id if the user owns it; no such row is
   * a success without data. The order id is not checked for form.
   */
  function GetMyOrderById(db: Database, userId: string, orderId: string, isUuid: string -> bool, fault: Fault)
      : (r: Response<Order>)
    requires db.Valid()
    reads db
    ensures !isUuid(userId) ==> r == Failed(400, InvalidInput)
    ensures isUuid(userId) && !fault.Healthy? ==> r == Failed(500, Internal)
    ensures r.Succeeded() <==> isUuid(userId) && fault.Healthy?
    ensures r.Succeeded() && r.data.Some? ==>
      r.data.value in db.orders && r.data.value.id == orderId && r.data.value.userId == userId
    ensures r.Succeeded() && r.data.None? ==>
      r.errors.None? && forall o :: o in db.orders && o.id == orderId ==> o.userId != userId
  {
    if !isUuid(userId) then Failed(400, InvalidInput)
    else if !fault.Healthy? then Failed(500, Internal)
    else match FindOrder(db.orders, orderId)
      case Some(i) =>
        if db.orders[i].userId == userId then Ok(db.orders[i])
        else
          OnlyRowWithId(db.orders, i);
          Response("success", None, None)
      case None => Response("success", None, None)
  }
}
