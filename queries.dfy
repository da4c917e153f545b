/** The small expressions of the order listings and the order detail view:
    the status filter, the sort direction and the unit price shown per item. */
module Queries {
  import opened Domain
  import opened Creation

  /** The `status` query parameter of both listings (`None` when absent or not
      a string): it filters only when it names one of the six statuses and is
      ignored otherwise. */
  function StatusFilter(q: Option<string>): (r: Option<Status>)
    ensures r.Some? <==>
      q.Some? && q.value in {"pending", "confirmed", "processing", "shipping", "delivered", "cancelled"}
    ensures r.Some? ==> StatusName(r.value) == q.value
  {
    match q
    case None => None
    case Some(s) => ParseStatus(s)
  }

  /** Filtering by a status's own name selects that status. */
  lemma StatusFilterRoundTrip(s: Status)
    ensures StatusFilter(Some(StatusName(s))) == Some(s)
  {
  }

  /** The creation-date direction of the administrator's listing: ascending
      (1) only for exactly `asc`, descending (-1) for anything else or nothing. */
  function SortDirection(sort: Option<string>): (r: int)
    ensures r == 1 || r == -1
    ensures r == 1 <==> sort == Some("asc")
  {
    if sort == Some("asc") then 1 else -1
  }

  /** The unit price shown for an item: its own price when truthy, else the
      price of its product when the product still exists, else 0. */
  function UnitPrice(itemPrice: int, product: Option<Product>): (r: int)
    ensures itemPrice != 0 ==> r == itemPrice
    ensures itemPrice == 0 && product.Some? ==> r == product.value.price
    ensures itemPrice == 0 && product.None? ==> r == 0
  {
    if itemPrice != 0 then itemPrice
    else if product.Some? && product.value.price != 0 then product.value.price
    else 0
  }

  /** Every item of an order built from an accepted request shows the price
      captured at ordering time, whatever has become of its product since. */
  lemma AcceptedItemsShowOrderPrice(products: map<Id, Product>, user: Id, req: OrderRequest, withStock: bool, later: Option<Product>)
    requires CheckRequest(products, user, req, withStock).None?
    ensures forall j :: 0 <= j < |req.items.value| ==>
      UnitPrice(req.items.value[j].price, later) == req.items.value[j].price
  {
  }
}
