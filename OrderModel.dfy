/** The order document: its enumerations and defaults, the required shipping address, and the pre-save hook. */
module OrderModel {
  import opened Common

  /** The `currentStatus` and history-entry enumeration. */
  datatype Status = Pending | Processing | Shipped | Delivered | Cancelled

  datatype PaymentMethod = Cod | Stripe | Online
  datatype PaymentStatus = PaymentPending | Paid | PaymentFailed

  /** A line of an order: a snapshot of the product as it was when the order was placed. */
  datatype OrderItem = OrderItem(productId: ProductId, title: string, price: Paise, qty: int, image: string)

  datatype Address = Address(
    fullName: string,
    phone: string,
    addressLine1: string,
    addressLine2: Option<string>,
    city: string,
    state: string,
    pincode: string,
    country: string)

  /** A shipping address as the client sent it; an absent field is `None`. */
  datatype AddressInput = AddressInput(
    fullName: Option<string>,
    phone: Option<string>,
    addressLine1: Option<string>,
    addressLine2: Option<string>,
    city: Option<string>,
    state: Option<string>,
    pincode: Option<string>,
    country: Option<string>)

  datatype HistoryEntry = HistoryEntry(status: Status, timestamp: Time, note: Option<string>)

  /** The money fields of an order, all in paise. */
  datatype Charges = Charges(itemsPrice: Paise, shippingPrice: Paise, taxPrice: Paise, totalAmount: Paise)

  datatype Order = Order(
    id: OrderId,
    userId: UserId,
    items: seq<OrderItem>,
    shippingAddress: Address,
    paymentMethod: PaymentMethod,
    paymentStatus: PaymentStatus,
    paymentId: Option<string>,
    charges: Charges,
    currentStatus: Status,
    statusHistory: seq<HistoryEntry>,
    deliveredAt: Option<Time>,
    cancelledAt: Option<Time>)

  /** A required string field: present and not empty (Mongoose refuses `''` for a required string). */
  predicate Required(s: Option<string>) {
    s.Some? && s.value != []
  }

  const DefaultCountry := "India"

  /** The address subdocument: six required fields, `country` defaulting to India. */
  function ToAddress(input: AddressInput): (r: Option<Address>)
    ensures r.Some? <==>
      && Required(input.fullName) && Required(input.phone) && Required(input.addressLine1)
      && Required(input.city) && Required(input.state) && Required(input.pincode)
    ensures r.Some? ==> r.value.country == input.country.GetOr(DefaultCountry)
    ensures r.Some? ==> r.value.fullName == input.fullName.value && r.value.pincode == input.pincode.value
  {
    if Required(input.fullName) && Required(input.phone) && Required(input.addressLine1)
       && Required(input.city) && Required(input.state) && Required(input.pincode)
    then Some(Address(input.fullName.value, input.phone.value, input.addressLine1.value, input.addressLine2,
                      input.city.value, input.state.value, input.pincode.value, input.country.GetOr(DefaultCountry)))
    else None
  }

  /** What the schema accepts on save. */
  predicate ValidItems(items: seq<OrderItem>) {
    forall i | 0 <= i < |items| :: items[i].qty >= 1 && items[i].title != []
  }

  /** The hook run on every save: a new document gets one history entry recording its current status. */
  function PreSave(o: Order, isNew: bool, now: Time): (r: Order)
    ensures r.(statusHistory := o.statusHistory) == o
    ensures |r.statusHistory| == |o.statusHistory| + (if isNew then 1 else 0)
    ensures r.statusHistory[..|o.statusHistory|] == o.statusHistory
    ensures isNew ==> r.statusHistory[|o.statusHistory|] == HistoryEntry(o.currentStatus, now, None)
  {
    if isNew then o.(statusHistory := o.statusHistory + [HistoryEntry(o.currentStatus, now, None)]) else o
  }

  /** The last history entry records the current status. */
  predicate HistoryCurrent(o: Order) {
    o.statusHistory != [] && o.statusHistory[|o.statusHistory| - 1].status == o.currentStatus
  }

  /**
   * `Order.create`: defaults (payment method `cod`, payment status `pending`, status `pending`), validation of the
   * address, the payment method and the lines, and the pre-save hook on the new document.
   */
  function NewOrder(id: OrderId, userId: UserId, items: seq<OrderItem>, address: Option<AddressInput>,
                    paymentMethod: Input<PaymentMethod>, charges: Charges, now: Time): (r: Result<Order>)
    ensures r.Ok? <==> address.Some? && ToAddress(address.value).Some? && !paymentMethod.Malformed? && ValidItems(items)
    ensures r.Err? ==> r.error == Thrown(ValidationFailed)
    ensures r.Ok? ==>
      && r.value.id == id && r.value.userId == userId && r.value.items == items && r.value.charges == charges
      && r.value.paymentMethod == (if paymentMethod.Given? then paymentMethod.value else Cod)
      && r.value.paymentStatus == PaymentPending && r.value.paymentId == None
      && r.value.currentStatus == Pending
      && r.value.statusHistory == [HistoryEntry(Pending, now, None)]
      && r.value.deliveredAt == None && r.value.cancelledAt == None
      && HistoryCurrent(r.value)
  {
    if address.None? || paymentMethod.Malformed? || !ValidItems(items) then Err(Thrown(ValidationFailed))
    else
      match ToAddress(address.value)
      case None => Err(Thrown(ValidationFailed))
      case Some(a) =>
        var m := if paymentMethod.Given? then paymentMethod.value else Cod;
        var o := Order(id, userId, items, a, m, PaymentPending, None, charges, Pending, [], None, None);
        Ok(PreSave(o, true, now))
  }
}
