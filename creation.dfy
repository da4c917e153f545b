/** Validation of an order-creation request, shared by the cash and the VNPay
    handlers: the chain of checks that stops at the first failure, and the
    order it builds when every check passes. */
module Creation {
  import opened Domain
  import opened Inventory

  /** A request body. `None` stands for a missing field or one of the wrong
      kind (items that are not an array, a fee that is not a number). Absent
      strings inside an item or an address are "", absent numbers 0. */
  datatype OrderRequest = OrderRequest(
    items: Option<seq<Item>>,
    address: Option<AddressInput>,
    shippingFee: Option<int>,
    totalAmount: Option<int>,
    paymentMethod: Option<string>)

  /** Why a request is refused; item failures carry the item's index. */
  datatype Failure =
    | Unauthenticated
    | BadItemList
    | MissingField(index: nat)
    | UnknownProduct(index: nat)
    | OutOfStock(index: nat, remaining: int)
    | IncompleteAddress
    | BadAmounts

  /** The response status of each refusal. */
  function Code(f: Failure): (code: int)
    ensures code == 401 <==> f == Unauthenticated
    ensures code == 404 <==> f.UnknownProduct?
    ensures code == 400 <==> !(f == Unauthenticated || f.UnknownProduct?)
  {
    match f
    case Unauthenticated => 401
    case UnknownProduct(_) => 404
    case _ => 400
  }

  /** JavaScript truthiness of the five item fields: "" and 0 are falsy, so a
      negative quantity or price passes. */
  predicate FieldsPresent(it: Item)
  {
    it.productId != "" && it.color != "" && it.size != "" && it.quantity != 0 && it.price != 0
  }

  predicate AddressComplete(a: AddressInput)
  {
    a.fullName != "" && a.phone != "" && a.province != "" &&
    a.district != "" && a.ward != "" && a.street != ""
  }

  /** The checks of the item loop on item `i`. With `withStock` (the cash
      handler) a present item must also name a stored product whose first
      matching variation holds at least its quantity; the refusal reports the
      stock left, 0 when no variation matches. */
  function ItemFailure(products: map<Id, Product>, it: Item, i: nat, withStock: bool): (r: Option<Failure>)
    ensures r.None? ==> FieldsPresent(it)
    ensures r.None? && withStock ==>
      it.productId in products &&
      Stock(products[it.productId].variations, it.color, it.size).Some? &&
      Stock(products[it.productId].variations, it.color, it.size).value >= it.quantity
    ensures !withStock ==> (r.None? <==> FieldsPresent(it))
    ensures withStock ==> (r.None? <==>
      FieldsPresent(it) && it.productId in products &&
      Stock(products[it.productId].variations, it.color, it.size).Some? &&
      Stock(products[it.productId].variations, it.color, it.size).value >= it.quantity)
    ensures r.Some? ==> (r.value.MissingField? <==> !FieldsPresent(it))
    ensures r.Some? ==> (r.value.UnknownProduct? <==> FieldsPresent(it) && withStock && it.productId !in products)
    ensures r.Some? ==> r.value.OutOfStock? || r.value.MissingField? || r.value.UnknownProduct?
    ensures r.Some? ==> r.value.index == i
    ensures r.Some? && r.value.OutOfStock? ==>
      r.value.remaining == match Stock(products[it.productId].variations, it.color, it.size)
                           case None => 0
                           case Some(q) => q
  {
    if !FieldsPresent(it) then Some(MissingField(i))
    else if !withStock then None
    else if it.productId !in products then Some(UnknownProduct(i))
    else
      var vs := products[it.productId].variations;
      match FindVariation(vs, it.color, it.size)
      case None => Some(OutOfStock(i, 0))
      case Some(k) => if vs[k].quantity < it.quantity then Some(OutOfStock(i, vs[k].quantity)) else None
  }

  /** The refusal of the first failing item at or after `from`. */
  function FirstItemFailure(products: map<Id, Product>, items: seq<Item>, from: nat, withStock: bool): (r: Option<Failure>)
    requires from <= |items|
    decreases |items| - from
    ensures r.None? <==> forall j :: from <= j < |items| ==> ItemFailure(products, items[j], j, withStock).None?
  {
    if from == |items| then None
    else
      match ItemFailure(products, items[from], from, withStock)
      case Some(f) => Some(f)
      case None => FirstItemFailure(products, items, from + 1, withStock)
  }

  /** A refusal from the item loop is that of the earliest failing item. */
  lemma {:induction false} FirstItemFailureIsEarliest(products: map<Id, Product>, items: seq<Item>, from: nat, withStock: bool)
    requires from <= |items|
    requires FirstItemFailure(products, items, from, withStock).Some?
    decreases |items| - from
    ensures exists j :: (from <= j < |items| &&
      ItemFailure(products, items[j], j, withStock) == FirstItemFailure(products, items, from, withStock) &&
      forall k :: from <= k < j ==> ItemFailure(products, items[k], k, withStock).None?)
  {
    if ItemFailure(products, items[from], from, withStock).None? {
      FirstItemFailureIsEarliest(products, items, from + 1, withStock);
    }
  }

  /** The validation chain, in the handlers' order: user, item list, each item,
      address, fee and total. The cash handler passes `withStock`; the VNPay
      handler checks only the item fields. */
  function CheckRequest(products: map<Id, Product>, user: Id, req: OrderRequest, withStock: bool): Option<Failure>
  {
    if user == "" then Some(Unauthenticated)
    else if req.items.None? || |req.items.value| == 0 then Some(BadItemList)
    else if FirstItemFailure(products, req.items.value, 0, withStock).Some? then
      FirstItemFailure(products, req.items.value, 0, withStock)
    else if req.address.None? || !AddressComplete(req.address.value) then Some(IncompleteAddress)
    else if req.shippingFee.None? || req.totalAmount.None? || req.totalAmount.value < 0 then Some(BadAmounts)
    else None
  }

  /** The request is accepted exactly when every check passes. */
  lemma AcceptedExactly(products: map<Id, Product>, user: Id, req: OrderRequest, withStock: bool)
    ensures CheckRequest(products, user, req, withStock).None? <==>
      user != "" &&
      req.items.Some? && |req.items.value| > 0 &&
      (forall j :: 0 <= j < |req.items.value| ==> ItemFailure(products, req.items.value[j], j, withStock).None?) &&
      req.address.Some? && AddressComplete(req.address.value) &&
      req.shippingFee.Some? && req.totalAmount.Some? && req.totalAmount.value >= 0
  {
  }

  /** Every item of an accepted cash request names a stored product whose
      first matching variation holds at least the item's quantity; every item
      of an accepted request of either kind has all five fields truthy. */
  lemma AcceptedItemsAvailable(products: map<Id, Product>, user: Id, req: OrderRequest, withStock: bool)
    requires CheckRequest(products, user, req, withStock).None?
    ensures forall j :: 0 <= j < |req.items.value| ==> FieldsPresent(req.items.value[j])
    ensures withStock ==> forall j :: 0 <= j < |req.items.value| ==>
      var it := req.items.value[j];
      it.productId in products &&
      Stock(products[it.productId].variations, it.color, it.size).Some? &&
      Stock(products[it.productId].variations, it.color, it.size).value >= it.quantity
  {
  }

  /** Whatever the cash handler accepts, the VNPay handler accepts too; it
      refuses for a different reason only where the cash handler reports a
      missing product or short stock. */
  lemma {:induction false} VNPayAcceptsCash(products: map<Id, Product>, user: Id, req: OrderRequest)
    ensures CheckRequest(products, user, req, true).None? ==> CheckRequest(products, user, req, false).None?
    ensures CheckRequest(products, user, req, true) != CheckRequest(products, user, req, false) ==>
      CheckRequest(products, user, req, true).Some? &&
      (CheckRequest(products, user, req, true).value.UnknownProduct? ||
       CheckRequest(products, user, req, true).value.OutOfStock?)
  {
    if user != "" && req.items.Some? && |req.items.value| > 0 {
      var items := req.items.value;
      var cash := FirstItemFailure(products, items, 0, true);
      var online := FirstItemFailure(products, items, 0, false);
      if online.Some? {
        FirstItemFailureIsEarliest(products, items, 0, false);
        var j :| 0 <= j < |items| && ItemFailure(products, items[j], j, false) == online &&
          forall k :: 0 <= k < j ==> ItemFailure(products, items[k], k, false).None?;
        FirstItemFailureIsEarliest(products, items, 0, true);
        var i :| 0 <= i < |items| && ItemFailure(products, items[i], i, true) == cash &&
          forall k :: 0 <= k < i ==> ItemFailure(products, items[k], k, true).None?;
        if i < j {
          assert FieldsPresent(items[i]);
        }
      } else if cash.Some? {
        FirstItemFailureIsEarliest(products, items, 0, true);
        var i :| 0 <= i < |items| && ItemFailure(products, items[i], i, true) == cash &&
          forall k :: 0 <= k < i ==> ItemFailure(products, items[k], k, true).None?;
        assert ItemFailure(products, items[i], i, false).None?;
      }
    }
  }

  /** The payment method of a cash request: the client's value, `cash` when absent. */
  function CashMethod(req: OrderRequest): string
  {
    match req.paymentMethod
    case None => "cash"
    case Some(m) => m
  }

  /** The stored form of a shipping address, fields renamed to the schema's. */
  function StoredAddress(a: AddressInput): Address
  {
    Address(a.fullName, a.phone, a.province, a.district, a.ward, a.street)
  }

  /** The order an accepted request creates: `pending`, empty payment information. */
  function Placed(user: Id, req: OrderRequest, paymentMethod: string): (o: Order)
    requires req.items.Some? && req.address.Some? && req.shippingFee.Some? && req.totalAmount.Some?
    ensures o.userId == user && o.items == req.items.value && o.paymentMethod == paymentMethod
    ensures o.status == Pending && o.paymentInfo == map[]
    ensures o.shippingFee == req.shippingFee.value && o.totalAmount == req.totalAmount.value
    ensures o.address.fullName == req.address.value.fullName && o.address.phoneNumber == req.address.value.phone
    ensures o.address.province == req.address.value.province && o.address.district == req.address.value.district
    ensures o.address.ward == req.address.value.ward && o.address.street == req.address.value.street
  {
    Order(user, req.items.value, StoredAddress(req.address.value),
          req.shippingFee.value, paymentMethod, req.totalAmount.value, Pending, map[])
  }

  /** The handlers' validation loop and the checks around it. */
  method Validate(products: map<Id, Product>, user: Id, req: OrderRequest, withStock: bool) returns (failure: Option<Failure>)
    ensures failure == CheckRequest(products, user, req, withStock)
    ensures failure.None? ==>
      req.items.Some? && req.address.Some? && req.shippingFee.Some? && req.totalAmount.Some?
  {
    if user == "" {
      return Some(Unauthenticated);
    }
    if req.items.None? || |req.items.value| == 0 {
      return Some(BadItemList);
    }
    var items := req.items.value;
    var i := 0;
    while i < |items|
      invariant 0 <= i <= |items|
      invariant FirstItemFailure(products, items, 0, withStock) == FirstItemFailure(products, items, i, withStock)
    {
      var item := items[i];
      if !FieldsPresent(item) {
        return Some(MissingField(i));
      }
      if withStock {
        if item.productId !in products {
          return Some(UnknownProduct(i));
        }
        var variations := products[item.productId].variations;
        var found := FindVariation(variations, item.color, item.size);
        if found.None? {
          return Some(OutOfStock(i, 0));
        }
        if variations[found.value].quantity < item.quantity {
          return Some(OutOfStock(i, variations[found.value].quantity));
        }
      }
      i := i + 1;
    }
    if req.address.None? || !AddressComplete(req.address.value) {
      return Some(IncompleteAddress);
    }
    if req.shippingFee.None? || req.totalAmount.None? || req.totalAmount.value < 0 {
      return Some(BadAmounts);
    }
    return None;
  }
}
