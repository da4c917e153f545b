/** Values shared by the order controller: statuses, order items, products
    with their (color, size) variations, addresses, orders and notifications. */
module Domain {

  datatype Option<+T> = None | Some(value: T)

  /** Document identities (orders, products, users) as the strings the store hands out. */
  type Id = string

  /** The six order statuses of the Order schema. */
  datatype Status = Pending | Confirmed | Processing | Shipping | Delivered | Cancelled

  /** The spelling of a status in requests, queries and stored documents. */
  function StatusName(s: Status): string
  {
    match s
    case Pending => "pending"
    case Confirmed => "confirmed"
    case Processing => "processing"
    case Shipping => "shipping"
    case Delivered => "delivered"
    case Cancelled => "cancelled"
  }

  /** The status spelled `q`, if `q` spells one. */
  function ParseStatus(q: string): (r: Option<Status>)
    ensures r.Some? ==> StatusName(r.value) == q
    ensures r.None? ==> forall s: Status :: StatusName(s) != q
  {
    if q == "pending" then Some(Pending)
    else if q == "confirmed" then Some(Confirmed)
    else if q == "processing" then Some(Processing)
    else if q == "shipping" then Some(Shipping)
    else if q == "delivered" then Some(Delivered)
    else if q == "cancelled" then Some(Cancelled)
    else None
  }

  /** Reading back the name of a status gives that status: names are distinct. */
  lemma ParseStatusName(s: Status)
    ensures ParseStatus(StatusName(s)) == Some(s)
    ensures forall t: Status :: StatusName(t) == StatusName(s) ==> t == s
  {
  }

  /** `delivered` and `cancelled` admit no further change. */
  predicate Terminal(s: Status)
  {
    s == Delivered || s == Cancelled
  }

  /** One line of an order (and of a request body): the product reference,
      the chosen variation, how many, and the unit price at ordering time. */
  datatype Item = Item(productId: Id, color: string, size: string, quantity: int, price: int)

  /** A stock-tracked (color, size) sub-unit of a product. */
  datatype Variation = Variation(color: string, size: string, quantity: int)

  /** A product: its total stock counter and its variations, in stored order. */
  datatype Product = Product(name: string, price: int, quantity: int, variations: seq<Variation>)

  /** The shipping address as the client sends it. */
  datatype AddressInput = AddressInput(
    fullName: string, phone: string, province: string,
    district: string, ward: string, street: string)

  /** The shipping address as an order stores it (`full_name`, `phone_number`, ...). */
  datatype Address = Address(
    fullName: string, phoneNumber: string, province: string,
    district: string, ward: string, street: string)

  datatype Order = Order(
    userId: Id,
    items: seq<Item>,
    address: Address,
    shippingFee: int,
    paymentMethod: string,
    totalAmount: int,
    status: Status,
    paymentInfo: map<string, string>)

  /** A stored notification: whom it is for, which order, the short order tag
      shown in its message, and the status it announces. */
  datatype Notice = Notice(userId: Id, orderId: Id, tag: string, status: Status)

  /** The order tag of notification messages: the last six characters of the id
      (all of it when shorter), as `slice(-6)` gives. */
  function ShortId(id: Id): (r: string)
    ensures |r| == if |id| < 6 then |id| else 6
    ensures id[|id| - |r|..] == r
  {
    if |id| <= 6 then id else id[|id| - 6..]
  }

  /** The notification written for order `orderId` of `o` moving to `s`. */
  function Announce(orderId: Id, o: Order, s: Status): (n: Notice)
    ensures n.userId == o.userId && n.orderId == orderId && n.status == s
    ensures n.tag == ShortId(orderId)
  {
    Notice(o.userId, orderId, ShortId(orderId), s)
  }
}
