/**
 * The PostgreSQL database the handlers talk to, as one object whose tables
 * are sequences of rows in storage order. Every SQL statement of the handlers
 * becomes a function on these sequences; a handler assigns the new tables to
 * the fields, which is what executing the statement does to the database.
 */
module Store {
  import opened Wrappers

  const IN_CART := "IN_CART"
  const COMPLETED := "COMPLETED"

  /** A row of `orders`: one cart line or one purchased line. */
  datatype Order = Order(
    id: string,
    productId: string,
    userId: string,
    note: Option<string>,
    purchaseSource: string,
    purchaseStatus: string,
    quantity: int)

  /** A row of `products`. */
  datatype Product = Product(
    id: string,
    name: string,
    description: string,
    price: int,
    stock: int,
    categoryId: Option<string>,
    sellerId: string)

  /** A row of `transactions`. The float `discount` is always zero and kept as an integer. */
  datatype Transaction = Transaction(
    id: string,
    discount: int,
    preDiscountAmount: int,
    finalAmount: int,
    invoice: string,
    paymentMethod: string)

  /** A row of `order_transactions`, linking an order to the transaction that bought it. */
  datatype OrderTransaction = OrderTransaction(id: string, orderId: string, transactionId: string)

  /** A row of `vouchers`; the float percentage is carried and never computed with. */
  datatype Voucher = Voucher(
    id: string,
    name: string,
    description: string,
    voucherType: string,
    status: string,
    discountPercentage: real)

  /**
   * What the database does with the statements a handler sends, numbered in the
   * order the handler sends them: all succeed, statement k fails, or statement k
   * is rejected because a parameter has an invalid text form (SQLSTATE 22P02).
   */
  datatype Fault = Healthy | FailsAt(statement: nat) | InvalidTextAt(statement: nat)
  {
    predicate Fails(k: nat) { !Healthy? && statement == k }
  }

  function OrderIds(os: seq<Order>): set<string> {
    set o | o in os :: o.id
  }

  function ProductIds(ps: seq<Product>): set<string> {
    set p | p in ps :: p.id
  }

  function TransactionIds(ts: seq<Transaction>): set<string> {
    set t | t in ts :: t.id
  }

  function LinkIds(ls: seq<OrderTransaction>): set<string> {
    set l | l in ls :: l.id
  }

  function VoucherIds(vs: seq<Voucher>): set<string> {
    set v | v in vs :: v.id
  }

  /**
   * The constraints of `orders`: the primary key, the unique pair
   * (product_id, user_id) over all rows whatever their status, and the
   * positive quantity every writer checks.
   */
  ghost predicate OrdersOk(os: seq<Order>) {
    && (forall i, j :: 0 <= i < j < |os| ==> os[i].id != os[j].id)
    && (forall i, j :: 0 <= i < j < |os| ==>
          os[i].productId != os[j].productId || os[i].userId != os[j].userId)
    && (forall i :: 0 <= i < |os| ==> os[i].quantity > 0)
  }

  /** The primary key of `products`, and stock that no committed write leaves negative. */
  ghost predicate ProductsOk(ps: seq<Product>) {
    && (forall i, j :: 0 <= i < j < |ps| ==> ps[i].id != ps[j].id)
    && (forall i :: 0 <= i < |ps| ==> ps[i].stock >= 0)
  }

  ghost predicate TransactionsOk(ts: seq<Transaction>) {
    forall i, j :: 0 <= i < j < |ts| ==> ts[i].id != ts[j].id
  }

  ghost predicate LinksOk(ls: seq<OrderTransaction>) {
    forall i, j :: 0 <= i < j < |ls| ==> ls[i].id != ls[j].id
  }

  ghost predicate VouchersOk(vs: seq<Voucher>) {
    forall i, j :: 0 <= i < j < |vs| ==> vs[i].id != vs[j].id
  }

  /** Index of the order with primary key `id`. */
  function FindOrder(os: seq<Order>, id: string): (r: Option<nat>)
    ensures r.Some? ==> r.value < |os| && os[r.value].id == id
    ensures r.None? <==> id !in OrderIds(os)
  {
    if os == [] then None
    else if os[0].id == id then Some(0)
    else match FindOrder(os[1..], id)
      case None =>
        assert OrderIds(os) == {os[0].id} + OrderIds(os[1..]);
        None
      case Some(i) => Some(i + 1)
  }

  /** Index of the product with primary key `id`. */
  function FindProduct(ps: seq<Product>, id: string): (r: Option<nat>)
    ensures r.Some? ==> r.value < |ps| && ps[r.value].id == id
    ensures r.None? <==> id !in ProductIds(ps)
  {
    if ps == [] then None
    else if ps[0].id == id then Some(0)
    else match FindProduct(ps[1..], id)
      case None =>
        assert ProductIds(ps) == {ps[0].id} + ProductIds(ps[1..]);
        None
      case Some(i) => Some(i + 1)
  }

  /** Rewriting columns other than id, product and user keeps the table's constraints. */
  lemma RewriteKeepsOrdersOk(os: seq<Order>, r: seq<Order>)
    requires OrdersOk(os) && |r| == |os|
    requires forall i :: 0 <= i < |os| ==>
      r[i].id == os[i].id && r[i].productId == os[i].productId && r[i].userId == os[i].userId
    requires forall i :: 0 <= i < |r| ==> r[i].quantity > 0
    ensures OrdersOk(r)
  {
  }

  class Database {
    var orders: seq<Order>
    var products: seq<Product>
    var transactions: seq<Transaction>
    var orderTransactions: seq<OrderTransaction>
    var vouchers: seq<Voucher>

    ghost predicate Valid()
      reads this
    {
      && OrdersOk(orders)
      && ProductsOk(products)
      && TransactionsOk(transactions)
      && LinksOk(orderTransactions)
      && VouchersOk(vouchers)
    }

    constructor ()
      ensures Valid()
      ensures orders == [] && products == [] && transactions == []
      ensures orderTransactions == [] && vouchers == []
    {
      orders, products, transactions := [], [], [];
      orderTransactions, vouchers := [], [];
    }
  }
}
