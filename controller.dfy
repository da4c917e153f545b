/** The order controller over an in-memory store: products, orders, carts and
    the notifications it writes. Each handler that changes the store is a
    method of `Store`. */
module Controller {
  import opened Domain
  import opened Inventory
  import opened Lifecycle
  import opened Creation

  /** The carts after emptying the user's one; a user without a cart gets none. */
  function ClearCart(carts: map<Id, seq<Item>>, user: Id): (r: map<Id, seq<Item>>)
    ensures r.Keys == carts.Keys
    ensures user in carts ==> r[user] == []
    ensures forall u :: u in carts && u != user ==> r[u] == carts[u]
  {
    if user in carts then carts[user := []] else carts
  }

  class Store {
    var products: map<Id, Product>
    var orders: map<Id, Order>
    var carts: map<Id, seq<Item>>
    var notices: seq<Notice>

    constructor (products: map<Id, Product>, orders: map<Id, Order>, carts: map<Id, seq<Item>>)
      ensures this.products == products && this.orders == orders && this.carts == carts
      ensures notices == []
    {
      this.products := products;
      this.orders := orders;
      this.carts := carts;
      notices := [];
    }

    /** Creating a cash order under the fresh id `newId`: on any failed check
        nothing changes; otherwise a `pending` order is stored and the user's
        cart is emptied. Stock is never touched. */
    method CreateCashOrder(user: Id, req: OrderRequest, newId: Id) returns (code: int)
      requires newId !in orders
      modifies this
      ensures products == old(products) && notices == old(notices)
      ensures CheckRequest(old(products), user, req, true).Some? ==>
        code == Code(CheckRequest(old(products), user, req, true).value) &&
        orders == old(orders) && carts == old(carts)
      ensures CheckRequest(old(products), user, req, true).None? ==>
        code == 201 &&
        req.items.Some? && req.address.Some? && req.shippingFee.Some? && req.totalAmount.Some? &&
        orders == old(orders)[newId := Placed(user, req, CashMethod(req))] &&
        carts == ClearCart(old(carts), user)
    {
      var failure := Validate(products, user, req, true);
      if failure.Some? {
        return Code(failure.value);
      }
      orders := orders[newId := Placed(user, req, CashMethod(req))];
      carts := ClearCart(carts, user);
      code := 201;
    }

    /** Creating a VNPay order: the item fields are checked but not products
        or stock, the method is always `vnpay`, and the cart is left alone. */
    method CreateVNPayOrder(user: Id, req: OrderRequest, newId: Id) returns (code: int)
      requires newId !in orders
      modifies this
      ensures products == old(products) && notices == old(notices) && carts == old(carts)
      ensures CheckRequest(old(products), user, req, false).Some? ==>
        code == Code(CheckRequest(old(products), user, req, false).value) && orders == old(orders)
      ensures CheckRequest(old(products), user, req, false).None? ==>
        code == 201 &&
        req.items.Some? && req.address.Some? && req.shippingFee.Some? && req.totalAmount.Some? &&
        orders == old(orders)[newId := Placed(user, req, "vnpay")]
    {
      var failure := Validate(products, user, req, false);
      if failure.Some? {
        return Code(failure.value);
      }
      orders := orders[newId := Placed(user, req, "vnpay")];
      code := 201;
    }

    /** A status update. A move the table refuses changes nothing (400). The
        move `pending -> confirmed` runs the decrement loop first: if it stops,
        its decrements stay, the order stays `pending`, and the answer is 400.
        A successful move stores the new status and writes a notification;
        no other move touches stock, and no role is checked. */
    method UpdateOrderStatus(id: Id, requested: string) returns (code: int)
      modifies this
      ensures carts == old(carts)
      ensures orders.Keys == old(orders).Keys
      ensures forall oid :: oid in old(orders) ==> Step(old(orders)[oid].status, orders[oid].status)
      ensures id !in old(orders) ==> code == 404 && unchanged(this)
      ensures id in old(orders) && Transition(old(orders)[id].status, requested).None? ==>
        code == 400 && unchanged(this)
      ensures id in old(orders) && Transition(old(orders)[id].status, requested).Some? ==>
        var o := old(orders)[id];
        var t := Transition(o.status, requested).value;
        var run := if o.status == Pending && t == Confirmed then ConfirmRun(old(products), o.items)
                   else Run(old(products), true);
        products == run.stock &&
        (run.ok ==> code == 200 && orders == old(orders)[id := o.(status := t)] &&
                    notices == old(notices) + [Announce(id, o, t)]) &&
        (!run.ok ==> code == 400 && orders == old(orders) && notices == old(notices))
    {
      if id !in orders {
        return 404;
      }
      var order := orders[id];
      var next := Transition(order.status, requested);
      if next.None? {
        return 400;
      }
      var target := next.value;
      if order.status == Pending && target == Confirmed {
        var stock, ok := DecrementStock(products, order.items);
        products := stock;
        if !ok {
          return 400;
        }
      }
      orders := orders[id := order.(status := target)];
      notices := notices + [Announce(id, order, target)];
      code := 200;
    }

    /** A cancellation by `requester` with `role`. When `CancelCode` allows it,
        the order becomes `cancelled` and a notification is written; an
        administrator's cancellation first credits each item's quantity back
        to its variation (never to the product total), whatever the status
        was; anyone else's leaves stock alone. */
    method CancelOrder(id: Id, requester: Id, role: string) returns (code: int)
      modifies this
      ensures carts == old(carts)
      ensures orders.Keys == old(orders).Keys
      ensures forall oid :: oid in old(orders) ==> Step(old(orders)[oid].status, orders[oid].status)
      ensures id !in old(orders) ==> code == 404 && unchanged(this)
      ensures id in old(orders) ==>
        var o := old(orders)[id];
        code == CancelCode(o, requester, role) &&
        (code != 200 ==> unchanged(this)) &&
        (code == 200 ==>
          orders == old(orders)[id := o.(status := Cancelled)] &&
          notices == old(notices) + [Announce(id, o, Cancelled)] &&
          products == if IsAdmin(role) then CreditRun(old(products), o.items) else old(products))
    {
      if id !in orders {
        return 404;
      }
      var order := orders[id];
      if Terminal(order.status) {
        return 400;
      }
      var admin := IsAdmin(role);
      if !admin && order.userId != requester {
        return 403;
      }
      if !admin && order.status != Pending {
        return 403;
      }
      if admin {
        products := CreditStock(products, order.items);
      }
      orders := orders[id := order.(status := Cancelled)];
      notices := notices + [Announce(id, order, Cancelled)];
      code := 200;
    }
  }
}
