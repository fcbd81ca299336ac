/**
 * Checkout (`addTransaction` in `services/transaction/handler.go`): one
 * database transaction that claims the listed cart lines, inserts the
 * purchase record, links every listed id to it, decrements stock once per
 * listed id, and commits only when no decrement took a product below zero.
 * Every statement works on local copies of the tables; the fields of the
 * database are assigned only at the commit, so any earlier return is the
 * deferred rollback.
 */
module TransactionHandler {
  import opened Wrappers
  import opened Http
  import opened Text
  import opened Store

  const InvoiceUrl := "https://www.invoicesimple.com/wp-content/uploads/2018/06/Sample-Invoice-printable.png"
  const InvalidInput := "Bad Request: Invalid input data"
  const NoOrdersFound := "No orders found for transaction"
  const InsufficientStock := "Insufficient stock for items "

  /** One entry of the 400's details: the order, the stock before its decrement, the quantity asked. */
  datatype Detail = Detail(orderId: string, productStock: int, requestedQuantity: int)

  datatype CheckoutError = CheckoutError(code: int, message: string, details: seq<Detail>)

  datatype CheckoutResponse = CheckoutResponse(status: string, data: Option<Transaction>, errors: Option<CheckoutError>)
  {
    predicate Succeeded() { status == "success" }
  }

  function Fail(code: int, message: string, details: seq<Detail>): CheckoutResponse {
    CheckoutResponse("failed", None, Some(CheckoutError(code, message, details)))
  }

  /** The statements of the unit of work, in the order they are sent. */
  datatype Step = Begin | ClaimLines | InsertTransaction | CopyLinks | Decrement(index: nat) | Commit

  /**
   * What the database does: everything succeeds, one step fails, or the bulk
   * copy reports a row count of its own.
   */
  datatype CheckoutFault = NoFault | StepFails(step: Step) | CopyCountIs(count: int)

  // ---------------------------------------------------------------- the claim

  predicate Claimable(o: Order, ids: seq<string>) {
    o.purchaseStatus == IN_CART && o.id in ids
  }

  /**
   * `UPDATE orders SET purchase_status='COMPLETED' WHERE purchase_status='IN_CART'
   * AND id = ANY($1)`: whoever owns a listed IN_CART row, it is completed.
   */
  function ClaimRows(os: seq<Order>, ids: seq<string>): (r: seq<Order>)
    ensures |r| == |os|
    ensures forall i :: 0 <= i < |os| ==>
      r[i] == if Claimable(os[i], ids) then os[i].(purchaseStatus := COMPLETED) else os[i]
  {
    if os == [] then []
    else
      var head := if Claimable(os[0], ids) then os[0].(purchaseStatus := COMPLETED) else os[0];
      [head] + ClaimRows(os[1..], ids)
  }

  /** The row count the claim reports as affected. */
  function ClaimCount(os: seq<Order>, ids: seq<string>): (n: nat)
    ensures n <= |os|
    ensures n == 0 <==> forall i :: 0 <= i < |os| ==> !Claimable(os[i], ids)
  {
    if os == [] then 0
    else (if Claimable(os[0], ids) then 1 else 0) + ClaimCount(os[1..], ids)
  }

  // ------------------------------------------------------------- the amount

  function Sum(xs: seq<int>): int {
    if xs == [] then 0 else xs[0] + Sum(xs[1..])
  }

  lemma {:induction false} SumAppend(a: seq<int>, b: seq<int>)
    ensures Sum(a + b) == Sum(a) + Sum(b)
  {
    if a == [] {
      assert a + b == b;
    } else {
      assert (a + b)[0] == a[0];
      assert (a + b)[1..] == a[1..] + b;
      SumAppend(a[1..], b);
    }
  }

  /** quantity × price of an order, when the JOIN finds its product. */
  function Priced(o: Order, ps: seq<Product>): Option<int> {
    match FindProduct(ps, o.productId)
    case None => None
    case Some(j) => Some(o.quantity * ps[j].price)
  }

  /** What one row adds to the SUM of the insert: only the user's COMPLETED rows count. */
  function ValueIfCompleted(o: Order, ps: seq<Product>, userId: string): seq<int> {
    if o.userId == userId && o.purchaseStatus == COMPLETED && Priced(o, ps).Some?
    then [Priced(o, ps).value] else []
  }

  /** The line values the SUM of the insert adds up, in table order. */
  function CompletedValues(os: seq<Order>, ps: seq<Product>, userId: string): seq<int> {
    if os == [] then [] else ValueIfCompleted(os[0], ps, userId) + CompletedValues(os[1..], ps, userId)
  }

  /** The line values of the user's rows that this claim completes. */
  function ClaimedValues(os: seq<Order>, ps: seq<Product>, ids: seq<string>, userId: string): seq<int> {
    if os == [] then []
    else
      var own := if Claimable(os[0], ids) && os[0].userId == userId && Priced(os[0], ps).Some?
                 then [Priced(os[0], ps).value] else [];
      own + ClaimedValues(os[1..], ps, ids, userId)
  }

  /**
   * `SUM(orders.quantity*products.price)` over the user's COMPLETED rows joined
   * with their products; SQL's SUM of no rows is NULL, which is None here.
   */
  function Amount(os: seq<Order>, ps: seq<Product>, userId: string): (r: Option<int>)
    ensures r.None? <==> forall i :: 0 <= i < |os| ==>
      os[i].userId != userId || os[i].purchaseStatus != COMPLETED || Priced(os[i], ps).None?
  {
    NoCompletedValues(os, ps, userId);
    var values := CompletedValues(os, ps, userId);
    if values == [] then None else Some(Sum(values))
  }

  lemma {:induction false} NoCompletedValues(os: seq<Order>, ps: seq<Product>, userId: string)
    ensures CompletedValues(os, ps, userId) == [] <==> forall i :: 0 <= i < |os| ==>
      os[i].userId != userId || os[i].purchaseStatus != COMPLETED || Priced(os[i], ps).None?
  {
    if os != [] {
      NoCompletedValues(os[1..], ps, userId);
      assert forall i :: 1 <= i < |os| ==> os[i] == os[1..][i - 1];
    }
  }

  /**
   * The amount the checkout records is everything the user had completed
   * before, earlier checkouts included, plus the user's own lines this claim
   * completes; lines of other users that the claim completes add nothing.
   */
  lemma {:induction false} ClaimAmount(os: seq<Order>, ps: seq<Product>, ids: seq<string>, userId: string)
    ensures Sum(CompletedValues(ClaimRows(os, ids), ps, userId))
         == Sum(CompletedValues(os, ps, userId)) + Sum(ClaimedValues(os, ps, ids, userId))
  {
    if os != [] {
      var claimed := ClaimRows(os, ids);
      assert claimed[1..] == ClaimRows(os[1..], ids);
      ClaimAmount(os[1..], ps, ids, userId);
      SumAppend(ValueIfCompleted(claimed[0], ps, userId), CompletedValues(claimed[1..], ps, userId));
      SumAppend(ValueIfCompleted(os[0], ps, userId), CompletedValues(os[1..], ps, userId));
      var own := if Claimable(os[0], ids) && os[0].userId == userId && Priced(os[0], ps).Some?
                 then [Priced(os[0], ps).value] else [];
      SumAppend(own, ClaimedValues(os[1..], ps, ids, userId));
      assert IN_CART != COMPLETED;
    }
  }

  // ---------------------------------------------------------- the decrements

  /** What one decrement statement RETURNs: the order id, its quantity, the new stock. */
  datatype Returned = Returned(orderId: string, quantity: int, stock: int)

  ghost predicate UniqueProductIds(ps: seq<Product>) {
    forall i, j :: 0 <= i < j < |ps| ==> ps[i].id != ps[j].id
  }

  /** The quantity order `id` takes from product `productId`: zero unless the order exists and names it. */
  function QuantityFor(os: seq<Order>, id: string, productId: string): (q: int)
    ensures (forall i :: 0 <= i < |os| ==> os[i].quantity >= 0) ==> q >= 0
  {
    match FindOrder(os, id)
    case None => 0
    case Some(i) => if os[i].productId == productId then os[i].quantity else 0
  }

  /** The row `o` of the decrement's FROM clause and the product it joins with, as indexes. */
  function Target(ps: seq<Product>, os: seq<Order>, id: string): (r: Option<(nat, nat)>)
    ensures r.Some? ==>
      (r.value.0 < |os| && r.value.1 < |ps| && os[r.value.0].id == id && ps[r.value.1].id == os[r.value.0].productId)
  {
    match FindOrder(os, id)
    case None => None
    case Some(i) =>
      match FindProduct(ps, os[i].productId)
      case None => None
      case Some(j) => Some((i, j))
  }

  /**
   * `UPDATE products SET stock = stock - o.quantity FROM orders o WHERE o.id = $1
   * AND products.id = o.product_id RETURNING o.id, o.quantity, stock`.
   * Whatever the order's status, its product loses the order's quantity; an id
   * with no order, or an order whose product is gone, changes nothing and
   * returns no row.
   */
  function DecrementOne(ps: seq<Product>, os: seq<Order>, id: string): (r: (seq<Product>, Option<Returned>))
    requires UniqueProductIds(ps)
    ensures |r.0| == |ps|
    ensures forall k :: 0 <= k < |ps| ==>
      r.0[k] == ps[k].(stock := ps[k].stock - QuantityFor(os, id, ps[k].id))
    ensures r.1.Some? <==> Target(ps, os, id).Some?
    ensures r.1.Some? ==>
      var (i, j) := Target(ps, os, id).value;
      r.1.value == Returned(id, os[i].quantity, r.0[j].stock)
  {
    match Target(ps, os, id)
    case None =>
      NoTargetTakesNothing(ps, os, id);
      assert forall k :: 0 <= k < |ps| ==> ps[k].(stock := ps[k].stock - 0) == ps[k];
      (ps, None)
    case Some((i, j)) =>
      var after := ps[j].stock - os[i].quantity;
      (ps[j := ps[j].(stock := after)], Some(Returned(id, os[i].quantity, after)))
  }

  /** An id that joins with no product takes nothing from any product. */
  lemma NoTargetTakesNothing(ps: seq<Product>, os: seq<Order>, id: string)
    requires Target(ps, os, id).None?
    ensures forall k :: 0 <= k < |ps| ==> QuantityFor(os, id, ps[k].id) == 0
  {
    if FindOrder(os, id).Some? {
      var i := FindOrder(os, id).value;
      assert os[i].productId !in ProductIds(ps);
    }
  }

  /** Everything the listed ids take from product `productId`, duplicates counted again. */
  function Demand(os: seq<Order>, ids: seq<string>, productId: string): int {
    if ids == [] then 0
    else Demand(os, ids[..|ids| - 1], productId) + QuantityFor(os, ids[|ids| - 1], productId)
  }

  /**
   * The batch: one decrement per listed id, in list order, each seeing the
   * stock the earlier ones left. Every product ends with its stock less
   * everything the listed ids take from it.
   */
  function Decrements(ps: seq<Product>, os: seq<Order>, ids: seq<string>): (r: (seq<Product>, seq<Returned>))
    requires UniqueProductIds(ps)
    ensures |r.0| == |ps| && |r.1| <= |ids|
    ensures forall k :: 0 <= k < |ps| ==>
      r.0[k] == ps[k].(stock := ps[k].stock - Demand(os, ids, ps[k].id))
  {
    if ids == [] then
      assert forall k :: 0 <= k < |ps| ==> ps[k].(stock := ps[k].stock - 0) == ps[k];
      (ps, [])
    else
      var (before, rows) := Decrements(ps, os, ids[..|ids| - 1]);
      var (after, row) := DecrementOne(before, os, ids[|ids| - 1]);
      (after, if row.Some? then rows + [row.value] else rows)
  }

  function DetailOf(row: Returned): Detail {
    Detail(row.orderId, row.stock + row.quantity, row.quantity)
  }

  /** The `outOfStock` list: a detail for each returned row whose new stock is negative, in order. */
  function Shortfalls(rows: seq<Returned>): (r: seq<Detail>)
    ensures |r| <= |rows|
    ensures r == [] <==> forall i :: 0 <= i < |rows| ==> rows[i].stock >= 0
    ensures forall d :: d in r <==> exists i :: 0 <= i < |rows| && rows[i].stock < 0 && d == DetailOf(rows[i])
  {
    if rows == [] then []
    else
      var last := rows[|rows| - 1];
      var front := rows[..|rows| - 1];
      assert forall i :: 0 <= i < |front| ==> front[i] == rows[i];
      Shortfalls(front) + (if last.stock < 0 then [DetailOf(last)] else [])
  }

  ghost predicate NonNegativeStock(ps: seq<Product>) {
    forall k :: 0 <= k < |ps| ==> ps[k].stock >= 0
  }

  /**
   * The oversell check is exact: starting from stock that is nowhere negative,
   * with non-negative order quantities, the batch returns no negative stock
   * exactly when no product ends the batch below zero.
   */
  lemma {:induction false} OversellDetected(ps: seq<Product>, os: seq<Order>, ids: seq<string>)
    requires UniqueProductIds(ps) && NonNegativeStock(ps)
    requires forall i :: 0 <= i < |os| ==> os[i].quantity >= 0
    ensures Shortfalls(Decrements(ps, os, ids).1) == [] <==> NonNegativeStock(Decrements(ps, os, ids).0)
  {
    if ids != [] {
      var front := ids[..|ids| - 1];
      var id := ids[|ids| - 1];
      var (before, rows) := Decrements(ps, os, front);
      assert UniqueProductIds(before);
      var (after, row) := DecrementOne(before, os, id);
      var all := if row.Some? then rows + [row.value] else rows;
      assert Decrements(ps, os, ids) == (after, all);
      OversellDetected(ps, os, front);
      if row.Some? {
        var (i, j) := Target(before, os, id).value;
        assert forall k :: 0 <= k < |before| && k != j ==> QuantityFor(os, id, before[k].id) == 0;
        assert all[..|all| - 1] == rows;
        if NonNegativeStock(after) {
          assert forall k :: 0 <= k < |before| ==> before[k].stock >= after[k].stock;
        }
      }
    }
  }

  /** The details of a list of rows are those of its parts, in order. */
  lemma {:induction false} ShortfallsAppend(a: seq<Returned>, b: seq<Returned>)
    ensures Shortfalls(a + b) == Shortfalls(a) + Shortfalls(b)
  {
    if b == [] {
      assert a + b == a;
    } else {
      var front := b[..|b| - 1];
      assert (a + b)[..|a + b| - 1] == a + front;
      assert (a + b)[|a + b| - 1] == b[|b| - 1];
      ShortfallsAppend(a, front);
    }
  }

  /** One row gives a detail exactly when its new stock is negative. */
  lemma ShortfallsOne(row: Returned)
    ensures Shortfalls([row]) == if row.stock < 0 then [DetailOf(row)] else []
  {
    assert [row][..0] == [];
  }

  /** Two sequences of products with the same ids, position by position, find every id at the same place. */
  lemma {:induction false} FindProductSameIds(ps: seq<Product>, qs: seq<Product>, id: string)
    requires |ps| == |qs| && forall k :: 0 <= k < |ps| ==> ps[k].id == qs[k].id
    ensures FindProduct(ps, id) == FindProduct(qs, id)
  {
    if ps != [] && ps[0].id != id {
      FindProductSameIds(ps[1..], qs[1..], id);
    }
  }

  /** The join of a decrement depends on the products only through their ids. */
  lemma TargetSameIds(ps: seq<Product>, qs: seq<Product>, os: seq<Order>, id: string)
    requires |ps| == |qs| && forall k :: 0 <= k < |ps| ==> ps[k].id == qs[k].id
    ensures Target(ps, os, id) == Target(qs, os, id)
  {
    if FindOrder(os, id).Some? {
      FindProductSameIds(ps, qs, os[FindOrder(os, id).value].productId);
    }
  }

  /**
   * The rows the batch RETURNs, stated on the tables as they were before it:
   * one for each listed id that joins with an order and its product, in list
   * order.
   */
  function ExpectedRows(ps: seq<Product>, os: seq<Order>, ids: seq<string>): (r: seq<Returned>)
    ensures |r| <= |ids|
  {
    if ids == [] then [] else ExpectedRows(ps, os, ids[..|ids| - 1]) + RowOfLast(ps, os, ids)
  }

  /**
   * The row of the last listed id, if it joins: the id, the order's quantity,
   * and the product's stock less everything that id and the ids before it
   * take from it.
   */
  function RowOfLast(ps: seq<Product>, os: seq<Order>, ids: seq<string>): (r: seq<Returned>)
    requires ids != []
    ensures |r| <= 1
  {
    var id := ids[|ids| - 1];
    match Target(ps, os, id)
    case None => []
    case Some((i, j)) => [Returned(id, os[i].quantity, ps[j].stock - Demand(os, ids, ps[j].id))]
  }

  /** The batch returns exactly the expected rows. */
  lemma {:induction false} DecrementsRows(ps: seq<Product>, os: seq<Order>, ids: seq<string>)
    requires UniqueProductIds(ps)
    ensures Decrements(ps, os, ids).1 == ExpectedRows(ps, os, ids)
  {
    if ids != [] {
      DecrementsRows(ps, os, ids[..|ids| - 1]);
      LastRow(ps, os, ids);
    }
  }

  /** The last statement of the batch adds the row of the last id. */
  lemma LastRow(ps: seq<Product>, os: seq<Order>, ids: seq<string>)
    requires UniqueProductIds(ps) && ids != []
    ensures Decrements(ps, os, ids).1 == Decrements(ps, os, ids[..|ids| - 1]).1 + RowOfLast(ps, os, ids)
  {
    var front := ids[..|ids| - 1];
    var (before, rows) := Decrements(ps, os, front);
    DecrementsKeepIds(ps, os, front);
    var row := DecrementOne(before, os, ids[|ids| - 1]).1;
    assert Decrements(ps, os, ids).1 == if row.Some? then rows + [row.value] else rows;
    ReturnedRow(ps, before, os, ids);
    assert rows + [] == rows;
  }

  /**
   * The last statement, run on the stock the earlier ones left, returns the
   * row of the last id.
   */
  lemma ReturnedRow(ps: seq<Product>, before: seq<Product>, os: seq<Order>, ids: seq<string>)
    requires UniqueProductIds(ps) && UniqueProductIds(before) && ids != []
    requires |before| == |ps|
    requires forall k :: 0 <= k < |ps| ==> before[k] == ps[k].(stock := ps[k].stock - Demand(os, ids[..|ids| - 1], ps[k].id))
    ensures var row := DecrementOne(before, os, ids[|ids| - 1]).1;
      (if row.Some? then [row.value] else []) == RowOfLast(ps, os, ids)
  {
    var id := ids[|ids| - 1];
    var (after, row) := DecrementOne(before, os, id);
    TargetSameIds(before, ps, os, id);
    match Target(ps, os, id)
    case None =>
    case Some((i, j)) =>
      assert after[j].stock == before[j].stock - QuantityFor(os, id, ps[j].id);
  }

  /**
   * Each detail reports the stock its product had just before that order's
   * decrement: the row the k-th statement returns, read as a detail, holds
   * the k-th id, the stock left by the statements before it, and the quantity.
   */
  lemma DetailIsPriorStock(ps: seq<Product>, os: seq<Order>, ids: seq<string>, k: nat)
    requires UniqueProductIds(ps) && k < |ids| && Target(ps, os, ids[k]).Some?
    ensures var rows := Decrements(ps, os, ids[..k + 1]).1;
      var (i, j) := Target(ps, os, ids[k]).value;
      |rows| > 0 && DetailOf(rows[|rows| - 1]) == Detail(ids[k], Decrements(ps, os, ids[..k]).0[j].stock, os[i].quantity)
  {
    DecrementsStep(ps, os, ids, k);
    var (before, rows) := Decrements(ps, os, ids[..k]);
    var (after, row) := DecrementOne(before, os, ids[k]);
    DecrementsKeepIds(ps, os, ids[..k]);
    TargetSameIds(before, ps, os, ids[k]);
    var (i, j) := Target(ps, os, ids[k]).value;
    assert after[j].stock == before[j].stock - os[i].quantity by {
      assert QuantityFor(os, ids[k], before[j].id) == os[i].quantity;
    }
  }

  /** The decrements leave every id in place, so the primary key still holds. */
  lemma DecrementsKeepIds(ps: seq<Product>, os: seq<Order>, ids: seq<string>)
    requires UniqueProductIds(ps)
    ensures UniqueProductIds(Decrements(ps, os, ids).0)
  {
    var after := Decrements(ps, os, ids).0;
    assert forall k :: 0 <= k < |ps| ==> after[k].id == ps[k].id;
  }

  lemma AppendTransactionKeepsOk(ts: seq<Transaction>, t: Transaction)
    requires TransactionsOk(ts) && t.id !in TransactionIds(ts)
    ensures TransactionsOk(ts + [t])
  {
    assert forall i :: 0 <= i < |ts| ==> ts[i].id in TransactionIds(ts);
  }

  lemma AppendLinksKeepsOk(ls: seq<OrderTransaction>, items: seq<OrderTransaction>)
    requires LinksOk(ls) && LinksOk(items)
    requires forall i :: 0 <= i < |items| ==> items[i].id !in LinkIds(ls)
    ensures LinksOk(ls + items)
  {
    assert forall i :: 0 <= i < |ls| ==> ls[i].id in LinkIds(ls);
  }

  lemma DecrementsStep(ps: seq<Product>, os: seq<Order>, ids: seq<string>, i: nat)
    requires UniqueProductIds(ps) && i < |ids|
    ensures
      var (before, rows) := Decrements(ps, os, ids[..i]);
      UniqueProductIds(before) &&
      var (after, row) := DecrementOne(before, os, ids[i]);
      Decrements(ps, os, ids[..i + 1]) == (after, if row.Some? then rows + [row.value] else rows)
  {
    assert ids[..i + 1][..i] == ids[..i];
    DecrementsKeepIds(ps, os, ids[..i]);
  }

  lemma ShortfallsStep(rows: seq<Returned>, row: Option<Returned>)
    ensures Shortfalls(if row.Some? then rows + [row.value] else rows)
         == Shortfalls(rows) + (if row.Some? && row.value.stock < 0 then [DetailOf(row.value)] else [])
  {
    if row.Some? {
      assert (rows + [row.value])[..|rows|] == rows;
    }
  }

  /** The link rows of a checkout: one per listed id, in list order, with the id `uuid.New` gave it. */
  function LinksFor(orderIds: seq<string>, linkIds: seq<string>, txId: string): (r: seq<OrderTransaction>)
    requires |linkIds| == |orderIds|
    ensures |r| == |orderIds|
    ensures forall k :: 0 <= k < |r| ==> r[k] == OrderTransaction(linkIds[k], orderIds[k], txId)
  {
    if orderIds == [] then []
    else [OrderTransaction(linkIds[0], orderIds[0], txId)] + LinksFor(orderIds[1..], linkIds[1..], txId)
  }

  /** The rows the bulk copy sends, built one per listed id. */
  method LinkRows(orderIds: seq<string>, linkIds: seq<string>, txId: string) returns (items: seq<OrderTransaction>)
    requires |linkIds| == |orderIds|
    ensures items == LinksFor(orderIds, linkIds, txId)
  {
    items := [];
    for i := 0 to |orderIds|
      invariant |items| == i
      invariant forall k :: 0 <= k < i ==> items[k] == OrderTransaction(linkIds[k], orderIds[k], txId)
    {
      items := items + [OrderTransaction(linkIds[i], orderIds[i], txId)];
    }
  }

  /**
   * The batch of decrements, read back in list order: the stock they leave and
   * the detail of each row that went negative. `completed` is false when a
   * statement of the batch fails.
   */
  method RunDecrements(ps: seq<Product>, os: seq<Order>, ids: seq<string>, fault: CheckoutFault)
      returns (completed: bool, products: seq<Product>, outOfStock: seq<Detail>)
    requires UniqueProductIds(ps)
    ensures completed <==> !DecrementFails(fault, |ids|)
    ensures completed ==> products == Decrements(ps, os, ids).0
    ensures completed ==> outOfStock == Shortfalls(Decrements(ps, os, ids).1)
  {
    products := ps;
    ghost var returned: seq<Returned> := [];
    outOfStock := [];
    for i := 0 to |ids|
      invariant (products, returned) == Decrements(ps, os, ids[..i])
      invariant outOfStock == Shortfalls(returned)
      invariant !DecrementFails(fault, i)
    {
      if fault == StepFails(Decrement(i)) {
        return false, ps, [];
      }
      DecrementsStep(ps, os, ids, i);
      var (next, row) := DecrementOne(products, os, ids[i]);
      ShortfallsStep(returned, row);
      products := next;
      if row.Some? {
        returned := returned + [row.value];
        if row.value.stock < 0 {
          outOfStock := outOfStock + [DetailOf(row.value)];
        }
      }
    }
    assert ids[..|ids|] == ids;
    completed := true;
  }

  // --------------------------------------------------------------- checkout

  /** A commit reached without shortfalls leaves every table within its constraints. */
  lemma CommitKeepsValid(os: seq<Order>, ps: seq<Product>, ts: seq<Transaction>, ls: seq<OrderTransaction>,
                         ids: seq<string>, linkIds: seq<string>, t: Transaction)
    requires OrdersOk(os) && ProductsOk(ps) && TransactionsOk(ts) && LinksOk(ls)
    requires t.id !in TransactionIds(ts)
    requires |linkIds| == |ids|
    requires forall i, j :: 0 <= i < j < |linkIds| ==> linkIds[i] != linkIds[j]
    requires forall i :: 0 <= i < |linkIds| ==> linkIds[i] !in LinkIds(ls)
    requires Shortfalls(Decrements(ps, ClaimRows(os, ids), ids).1) == []
    ensures OrdersOk(ClaimRows(os, ids))
    ensures ProductsOk(Decrements(ps, ClaimRows(os, ids), ids).0)
    ensures TransactionsOk(ts + [t])
    ensures LinksOk(ls + LinksFor(ids, linkIds, t.id))
  {
    var claimed := ClaimRows(os, ids);
    assert OrdersOk(claimed) by {
      RewriteKeepsOrdersOk(os, claimed);
    }
    assert NonNegativeStock(Decrements(ps, claimed, ids).0) by {
      OversellDetected(ps, claimed, ids);
    }
    DecrementsKeepIds(ps, claimed, ids);
    assert TransactionsOk(ts + [t]) by {
      AppendTransactionKeepsOk(ts, t);
    }
    assert LinksOk(ls + LinksFor(ids, linkIds, t.id)) by {
      AppendLinksKeepsOk(ls, LinksFor(ids, linkIds, t.id));
    }
  }

  /** One of the first `n` decrement statements of the batch fails. */
  predicate DecrementFails(fault: CheckoutFault, n: nat) {
    fault.StepFails? && fault.step.Decrement? && fault.step.index < n
  }

  /** Every statement up to the batch of decrements went through. */
  predicate ReachesDecrements(os: seq<Order>, ps: seq<Product>, userId: string, paymentMethod: string,
                              ids: seq<string>, fault: CheckoutFault)
  {
    && ByteLen(paymentMethod) > 1 && |ids| > 0
    && fault != StepFails(Begin) && fault != StepFails(ClaimLines)
    && ClaimCount(os, ids) > 0
    && fault != StepFails(InsertTransaction)
    && Amount(ClaimRows(os, ids), ps, userId).Some?
    && fault != StepFails(CopyLinks)
    && (fault.CopyCountIs? ==> fault.count == |ids|)
    && !DecrementFails(fault, |ids|)
  }

  /**
   * The response of `addTransaction` for a database holding `os` and `ps`:
   * the first check that fails decides it.
   */
  function Outcome(os: seq<Order>, ps: seq<Product>, userId: string, paymentMethod: string,
                   ids: seq<string>, txId: string, fault: CheckoutFault): (r: CheckoutResponse)
    requires UniqueProductIds(ps)
    ensures r.Succeeded() <==>
      && ReachesDecrements(os, ps, userId, paymentMethod, ids, fault)
      && Shortfalls(Decrements(ps, ClaimRows(os, ids), ids).1) == []
      && fault != StepFails(Commit)
    ensures r.Succeeded() ==> r.errors.None? && r.data.Some?
    ensures !r.Succeeded() ==> r.status == "failed" && r.data.None? && r.errors.Some?
    ensures (ByteLen(paymentMethod) > 1 && |ids| > 0 && fault != StepFails(Begin) && fault != StepFails(ClaimLines)
             && ClaimCount(os, ids) == 0) ==> r == Fail(400, NoOrdersFound, [])
    ensures (ReachesDecrements(os, ps, userId, paymentMethod, ids, fault)
             && Shortfalls(Decrements(ps, ClaimRows(os, ids), ids).1) != [])
            ==> r == Fail(400, InsufficientStock, Shortfalls(Decrements(ps, ClaimRows(os, ids), ids).1))
  {
    if ByteLen(paymentMethod) <= 1 || |ids| == 0 then Fail(400, InvalidInput, [])
    else if fault == StepFails(Begin) || fault == StepFails(ClaimLines) then Fail(500, Internal, [])
    else if ClaimCount(os, ids) == 0 then Fail(400, NoOrdersFound, [])
    else
      var claimed := ClaimRows(os, ids);
      var total := Amount(claimed, ps, userId);
      if fault == StepFails(InsertTransaction) || total.None? then Fail(500, Internal, [])
      else if fault == StepFails(CopyLinks) || (fault.CopyCountIs? && fault.count != |ids|) then Fail(500, Internal, [])
      else if DecrementFails(fault, |ids|) then Fail(500, Internal, [])
      else
        var short := Shortfalls(Decrements(ps, claimed, ids).1);
        if short != [] then Fail(400, InsufficientStock, short)
        else if fault == StepFails(Commit) then Fail(500, Internal, [])
        // the scan writes both the invoice and the payment_method column into Invoice
        else CheckoutResponse("success", Some(Transaction(txId, 0, total.value, total.value, paymentMethod, paymentMethod)), None)
  }

  /** The input check comes first: a payment method of at most one byte, or no ids, is a 400 whatever the tables hold. */
  lemma InvalidInputFirst(os: seq<Order>, ps: seq<Product>, userId: string, paymentMethod: string,
                          ids: seq<string>, txId: string, fault: CheckoutFault)
    requires UniqueProductIds(ps)
    ensures Outcome(os, ps, userId, paymentMethod, ids, txId, fault) == Fail(400, InvalidInput, [])
        <==> ByteLen(paymentMethod) <= 1 || |ids| == 0
  {
  }

  /**
   * A checkout that gets past the input check and the claim but completes no
   * line, because no listed id is an IN_CART row, is a 400 and writes nothing.
   */
  lemma NothingClaimedRejected(os: seq<Order>, ps: seq<Product>, userId: string, paymentMethod: string,
                               ids: seq<string>, txId: string, fault: CheckoutFault)
    requires UniqueProductIds(ps)
    requires ByteLen(paymentMethod) > 1 && |ids| > 0
    requires fault != StepFails(Begin) && fault != StepFails(ClaimLines)
    ensures Outcome(os, ps, userId, paymentMethod, ids, txId, fault) == Fail(400, NoOrdersFound, [])
        <==> forall i :: 0 <= i < |os| ==> !(os[i].purchaseStatus == IN_CART && os[i].id in ids)
  {
    if Outcome(os, ps, userId, paymentMethod, ids, txId, fault) == Fail(400, NoOrdersFound, []) {
      assert NoOrdersFound != Internal && NoOrdersFound != InsufficientStock;
    }
  }

  /** A one-letter ASCII payment method never gets past the input check; one non-ASCII rune does. */
  lemma SingleRunePaymentMethod(c: char)
    ensures ByteLen([c]) <= 1 <==> c as int < 0x80
  {
  }

  /**
   * Once every statement before the batch went through, the checkout is
   * refused for stock exactly when the batch would leave some product below
   * zero, and the details list every returned row that went negative.
   */
  lemma {:induction false} OversoldCartIsRejected(os: seq<Order>, ps: seq<Product>, userId: string, paymentMethod: string,
                                ids: seq<string>, txId: string, fault: CheckoutFault)
    requires OrdersOk(os) && ProductsOk(ps)
    requires ReachesDecrements(os, ps, userId, paymentMethod, ids, fault)
    ensures var r := Outcome(os, ps, userId, paymentMethod, ids, txId, fault);
      (r.errors.Some? && r.errors.value.message == InsufficientStock)
      <==> !NonNegativeStock(Decrements(ps, ClaimRows(os, ids), ids).0)
    ensures !NonNegativeStock(Decrements(ps, ClaimRows(os, ids), ids).0) ==>
      Outcome(os, ps, userId, paymentMethod, ids, txId, fault)
        == Fail(400, InsufficientStock, Shortfalls(ExpectedRows(ps, ClaimRows(os, ids), ids)))
  {
    var claimed := ClaimRows(os, ids);
    var r := Outcome(os, ps, userId, paymentMethod, ids, txId, fault);
    assert forall i :: 0 <= i < |claimed| ==> claimed[i].quantity >= 0;
    OversellDetected(ps, claimed, ids);
    DecrementsRows(ps, claimed, ids);
    if Shortfalls(Decrements(ps, claimed, ids).1) == [] {
      assert InsufficientStock != Internal;
      assert r.errors.Some? ==> r.errors.value.message != InsufficientStock;
    }
  }

  /**
   * The amount of a successful checkout is what the user had completed before,
   * earlier purchases included, plus the user's own lines this checkout claims.
   */
  lemma {:induction false} CheckoutAmount(os: seq<Order>, ps: seq<Product>, userId: string, paymentMethod: string,
                                          ids: seq<string>, txId: string, fault: CheckoutFault)
    requires UniqueProductIds(ps)
    requires Outcome(os, ps, userId, paymentMethod, ids, txId, fault).Succeeded()
    ensures var t := Outcome(os, ps, userId, paymentMethod, ids, txId, fault).data.value;
      && t.finalAmount == t.preDiscountAmount && t.discount == 0
      && t.finalAmount == Sum(CompletedValues(os, ps, userId)) + Sum(ClaimedValues(os, ps, ids, userId))
      && t.invoice == paymentMethod && t.paymentMethod == paymentMethod && t.id == txId
  {
    ClaimAmount(os, ps, ids, userId);
  }

  /** An id listed twice is decremented twice. */
  lemma {:induction false} RepeatedIdDecrementsTwice(os: seq<Order>, id: string, productId: string)
    ensures Demand(os, [id, id], productId) == 2 * QuantityFor(os, id, productId)
  {
    assert [id, id][..1] == [id];
    assert [id][..0] == [];
    assert Demand(os, [id], productId) == QuantityFor(os, id, productId);
  }

  /**
   * The statements of `addTransaction` inside the database transaction, run
   * on the tables as values: the response, and the tables a commit would
   * make durable. `txId` and `linkIds` are the ids `uuid.New` hands out for
   * the transaction and for each link row.
   */
  method RunCheckout(os: seq<Order>, ps: seq<Product>, ts: seq<Transaction>, ls: seq<OrderTransaction>,
                     userId: string, paymentMethod: string, orderIds: seq<string>,
                     txId: string, linkIds: seq<string>, fault: CheckoutFault)
      returns (r: CheckoutResponse, os': seq<Order>, ps': seq<Product>, ts': seq<Transaction>, ls': seq<OrderTransaction>)
    requires UniqueProductIds(ps)
    requires |linkIds| == |orderIds|
    ensures r == Outcome(os, ps, userId, paymentMethod, orderIds, txId, fault)
    ensures r.Succeeded() ==>
      var claimed := ClaimRows(os, orderIds);
      var total := Amount(claimed, ps, userId).value;
      && os' == claimed
      && ps' == Decrements(ps, claimed, orderIds).0
      && ts' == ts + [Transaction(txId, 0, total, total, InvoiceUrl, paymentMethod)]
      && ls' == ls + LinksFor(orderIds, linkIds, txId)
  {
    os', ps', ts', ls' := os, ps, ts, ls;
    if ByteLen(paymentMethod) <= 1 || |orderIds| <= 0 {
      return Fail(400, InvalidInput, []), os', ps', ts', ls';
    }
    if fault == StepFails(Begin) {
      return Fail(500, Internal, []), os', ps', ts', ls';
    }

    // claim the listed IN_CART lines
    if fault == StepFails(ClaimLines) {
      return Fail(500, Internal, []), os', ps', ts', ls';
    }
    var orders := ClaimRows(os, orderIds);
    if ClaimCount(os, orderIds) == 0 {
      return Fail(400, NoOrdersFound, []), os', ps', ts', ls';
    }

    // insert the transaction with the aggregate amount; a NULL total does not scan into an int
    if fault == StepFails(InsertTransaction) {
      return Fail(500, Internal, []), os', ps', ts', ls';
    }
    var total := Amount(orders, ps, userId);
    if total.None? {
      return Fail(500, Internal, []), os', ps', ts', ls';
    }
    var stored := Transaction(txId, 0, total.value, total.value, InvoiceUrl, paymentMethod);
    // the scan writes both the invoice and the payment_method column into Invoice
    var created := Transaction(txId, 0, total.value, total.value, paymentMethod, paymentMethod);

    // one link row per listed id, sent in one bulk copy
    var items := LinkRows(orderIds, linkIds, txId);
    if fault == StepFails(CopyLinks) {
      return Fail(500, Internal, []), os', ps', ts', ls';
    }
    var copied := if fault.CopyCountIs? then fault.count else |items|;
    if copied != |orderIds| {
      return Fail(500, Internal, []), os', ps', ts', ls';
    }

    var completed, products, outOfStock := RunDecrements(ps, orders, orderIds, fault);
    if !completed {
      return Fail(500, Internal, []), os', ps', ts', ls';
    }
    if |outOfStock| >= 1 {
      return Fail(400, InsufficientStock, outOfStock), os', ps', ts', ls';
    }
    if fault == StepFails(Commit) {
      return Fail(500, Internal, []), os', ps', ts', ls';
    }
    r := CheckoutResponse("success", Some(created), None);
    os', ps', ts', ls' := orders, products, ts + [stored], ls + items;
  }

  /** `tx.Commit`: the tables the unit of work built become the database's. */
  method CommitTables(db: Database, os: seq<Order>, ps: seq<Product>, ts: seq<Transaction>, ls: seq<OrderTransaction>)
    requires OrdersOk(os) && ProductsOk(ps) && TransactionsOk(ts) && LinksOk(ls) && VouchersOk(db.vouchers)
    modifies db`orders, db`products, db`transactions, db`orderTransactions
    ensures db.Valid()
    ensures db.orders == os && db.products == ps && db.transactions == ts && db.orderTransactions == ls
  {
    db.orders, db.products, db.transactions, db.orderTransactions := os, ps, ts, ls;
  }

  /**
   * `addTransaction` against the database: nothing is written unless the
   * checkout succeeds (the deferred rollback), and then the claim, the
   * purchase record, the links and the decrements are written together.
   */
  method Checkout(db: Database, userId: string, paymentMethod: string, orderIds: seq<string>,
                  txId: string, linkIds: seq<string>, fault: CheckoutFault)
      returns (r: CheckoutResponse)
    requires db.Valid()
    requires txId !in TransactionIds(db.transactions)
    requires |linkIds| == |orderIds|
    requires forall i, j :: 0 <= i < j < |linkIds| ==> linkIds[i] != linkIds[j]
    requires forall i :: 0 <= i < |linkIds| ==> linkIds[i] !in LinkIds(db.orderTransactions)
    modifies db`orders, db`products, db`transactions, db`orderTransactions
    ensures db.Valid()
    ensures r == Outcome(old(db.orders), old(db.products), userId, paymentMethod, orderIds, txId, fault)
    ensures !r.Succeeded() ==>
      && db.orders == old(db.orders) && db.products == old(db.products)
      && db.transactions == old(db.transactions) && db.orderTransactions == old(db.orderTransactions)
    ensures r.Succeeded() ==>
      var claimed := ClaimRows(old(db.orders), orderIds);
      var total := Amount(claimed, old(db.products), userId).value;
      && db.orders == claimed
      && db.products == Decrements(old(db.products), claimed, orderIds).0
      && db.transactions == old(db.transactions) + [Transaction(txId, 0, total, total, InvoiceUrl, paymentMethod)]
      && db.orderTransactions == old(db.orderTransactions) + LinksFor(orderIds, linkIds, txId)
  {
    var os, ps, ts, ls;
    r, os, ps, ts, ls := RunCheckout(db.orders, db.products, db.transactions, db.orderTransactions,
                                     userId, paymentMethod, orderIds, txId, linkIds, fault);
    if r.Succeeded() {
      var total := Amount(os, db.products, userId).value;
      CommitKeepsValid(db.orders, db.products, db.transactions, db.orderTransactions, orderIds, linkIds,
                       Transaction(txId, 0, total, total, InvoiceUrl, paymentMethod));
      CommitTables(db, os, ps, ts, ls);
    }
  }
}
