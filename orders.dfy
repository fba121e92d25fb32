/**
 * Order creation and cancellation in `src/services/orders.ts`: the totals and item rows
 * written for a new order, the order number format, and the pending-only cancel rule.
 * The reads of a customer's orders follow. The clock reading, the random draw and the
 * database errors are parameters.
 */
module Orders {
  import opened Common
  import opened Text
  import opened Sorting
  import Shipping
  import CartService

  datatype Address = Address(
    firstName: string, lastName: string, phone: string, address1: string, address2: Option<string>,
    city: string, state: string, postcode: string, country: string)

  /** One entry of `CreateOrderData.items`; amounts in centavos. */
  datatype OrderLine = OrderLine(
    productId: Id, variantId: Option<Id>, productName: string, sku: Option<string>, quantity: int, unitPrice: int)

  datatype CreateOrderData = CreateOrderData(shippingAddress: Address, items: seq<OrderLine>, paymentMethod: string, customerNote: string)

  datatype User = User(id: string, email: string)

  /** A row of `orders`. */
  datatype Order = Order(
    id: nat, orderNumber: string, orderDate: string, status: string, customerEmail: string, customerNote: string,
    shipping: Address, billing: Address, billingEmail: string,
    subtotal: int, shippingTotal: int, total: int, paymentMethod: string, currency: string)

  /** A row of `order_items`. */
  datatype OrderItemRow = OrderItemRow(
    orderId: nat, productId: Id, variantId: Option<Id>, productName: string, sku: Option<string>,
    quantity: int, unitPrice: int, subtotal: int, total: int)

  function LineAmount(l: OrderLine): int {
    l.unitPrice * l.quantity
  }

  /** `items.reduce((sum, item) => sum + item.unit_price * item.quantity, 0)`. */
  function Subtotal(lines: seq<OrderLine>): int {
    SumOf(lines, LineAmount)
  }

  function ItemRow(orderId: nat, l: OrderLine): OrderItemRow {
    OrderItemRow(orderId, l.productId, l.variantId, l.productName, l.sku, l.quantity, l.unitPrice, l.unitPrice * l.quantity, l.unitPrice * l.quantity)
  }

  /** The `order_items` rows: one per line, in order, each carrying the line's fields and its amount. */
  function ItemRows(orderId: nat, lines: seq<OrderLine>): (r: seq<OrderItemRow>)
    ensures |r| == |lines|
    ensures forall i :: 0 <= i < |lines| ==> r[i] == ItemRow(orderId, lines[i])
  {
    if |lines| == 0 then [] else [ItemRow(orderId, lines[0])] + ItemRows(orderId, lines[1..])
  }

  function RowTotal(r: OrderItemRow): int {
    r.total
  }

  /** The item rows' totals add up to the order's subtotal, and each row's subtotal equals its total. */
  lemma {:induction false} ItemRowsSumToSubtotal(orderId: nat, lines: seq<OrderLine>)
    ensures SumOf(ItemRows(orderId, lines), RowTotal) == Subtotal(lines)
    ensures forall i :: 0 <= i < |lines| ==> ItemRows(orderId, lines)[i].subtotal == ItemRows(orderId, lines)[i].total == LineAmount(lines[i])
  {
    if |lines| > 0 {
      ItemRowsSumToSubtotal(orderId, lines[1..]);
      assert ItemRows(orderId, lines)[1..] == ItemRows(orderId, lines[1..]);
    }
  }

  /** `Date.now().toString().slice(-8)`. */
  function TimestampTail(now: nat): (r: string)
    ensures |r| <= 8
  {
    var s := NatToString(now);
    if |s| >= 8 then s[|s| - 8..] else s
  }

  /** `generateOrderNumber` with the clock reading and the draw `Math.floor(Math.random() * 1000)` given. */
  function OrderNumber(now: nat, draw: nat): string
    requires draw < 1000
  {
    "ORD-" + TimestampTail(now) + "-" + PadStart(NatToString(draw), 3, '0')
  }

  /** The draw, padded, is exactly three digits whose value is the draw. */
  lemma DrawDigits(draw: nat)
    requires draw < 1000
    ensures var p := PadStart(NatToString(draw), 3, '0');
      |p| == 3 && (forall k :: 0 <= k < 3 ==> IsDigit(p[k])) && DigitsValue(p) == draw
  {
    var d := NatToString(draw);
    var p := PadStart(d, 3, '0');
    Pow10Values();
    NatToStringLength(draw, 3);
    var z := p[..|p| - |d|];
    assert p == z + d;
    DigitsValueLeadingZeros(z, d);
  }

  /** A clock reading of eight digits or more leaves exactly eight characters. */
  lemma TimestampTailLength(now: nat)
    requires now >= 10000000
    ensures |TimestampTail(now)| == 8
  {
    Pow10Values();
    NatToStringLength(now, 8);
  }

  /** The number is "ORD-", the last eight timestamp digits or fewer, "-", and three more characters. */
  lemma OrderNumberShape(now: nat, draw: nat)
    requires draw < 1000
    ensures var n := OrderNumber(now, draw);
      var t := |TimestampTail(now)|;
      |n| == 8 + t && n[..4] == "ORD-" && n[4..4 + t] == TimestampTail(now) && n[4 + t] == '-'
    ensures now >= 10000000 ==> |OrderNumber(now, draw)| == 16
  {
    var t := TimestampTail(now);
    DrawDigits(draw);
    assert OrderNumber(now, draw) == "ORD-" + t + "-" + PadStart(NatToString(draw), 3, '0');
    if now >= 10000000 {
      TimestampTailLength(now);
    }
  }

  /** The last three characters of the number are digits spelling the draw. */
  lemma OrderNumberDraw(now: nat, draw: nat)
    requires draw < 1000
    ensures var n := OrderNumber(now, draw);
      |n| >= 3 && (forall k :: |n| - 3 <= k < |n| ==> IsDigit(n[k])) && DigitsValue(n[|n| - 3..]) == draw
  {
    var p := PadStart(NatToString(draw), 3, '0');
    var n := OrderNumber(now, draw);
    DrawDigits(draw);
    assert n == ("ORD-" + TimestampTail(now) + "-") + p;
    assert n[|n| - 3..] == p;
  }

  function Pow10(k: nat): nat {
    if k == 0 then 1 else 10 * Pow10(k - 1)
  }

  lemma Pow10Values()
    ensures Pow10(3) == 1000 && Pow10(7) == 10000000 && Pow10(8) == 100000000
  {
    assert Pow10(1) == 10;
    assert Pow10(2) == 100;
    assert Pow10(3) == 1000;
    assert Pow10(4) == 10000;
    assert Pow10(5) == 100000;
    assert Pow10(6) == 1000000;
    assert Pow10(8) == 100000000;
  }

  /** A number below `10^k` has at most `k` digits, and one of at least `10^(k-1)` has at least `k`. */
  lemma {:induction false} NatToStringLength(n: nat, k: nat)
    requires k >= 1
    ensures n < Pow10(k) ==> |NatToString(n)| <= k
    ensures n >= Pow10(k - 1) ==> |NatToString(n)| >= k
  {
    if n >= 10 {
      assert NatToString(n) == NatToString(n / 10) + [DigitChar(n % 10)];
      if k >= 2 {
        NatToStringLength(n / 10, k - 1);
      } else {
        assert Pow10(1) == 10;
      }
    } else if k >= 2 {
      assert Pow10(k - 1) == 10 * Pow10(k - 2);
      Pow10Positive(k - 2);
    }
  }

  lemma {:induction false} Pow10Positive(k: nat)
    ensures Pow10(k) >= 1
  {
    if k > 0 { Pow10Positive(k - 1); }
  }

  /** The order row a successful `insert` writes. */
  function NewOrder(id: nat, user: User, data: CreateOrderData, fee: int, now: nat, draw: nat, date: string): (r: Order)
    requires draw < 1000
    ensures r.subtotal == Subtotal(data.items) && r.shippingTotal == fee && r.total == r.subtotal + r.shippingTotal
    ensures r.status == "pending" && r.currency == "PHP"
    ensures r.customerEmail == user.email && r.billingEmail == user.email
    ensures r.shipping == data.shippingAddress && r.billing == data.shippingAddress
  {
    var subtotal := Subtotal(data.items);
    Order(id, OrderNumber(now, draw), date, "pending", user.email, data.customerNote,
          data.shippingAddress, data.shippingAddress, user.email,
          subtotal, fee, subtotal + fee, data.paymentMethod, "PHP")
  }

  const MustLogInToOrder := "Must be logged in to create order"
  const MustLogIn := "Must be logged in"
  const OnlyPending := "Only pending orders can be cancelled"
  /** The error `.single()` reports when no row (or more than one) matches. */
  const NoSingleRow := "JSON object requested, multiple (or no) rows returned"

  /** The rows selected by `.eq('id', orderId).eq('customer_email', email)`. */
  predicate Matches(o: Order, orderId: nat, email: string) {
    o.id == orderId && o.customerEmail == email
  }

  /** `update({ status: 'cancelled' })` on the matching rows. */
  function Cancelled(orders: seq<Order>, orderId: nat, email: string): (r: seq<Order>)
    ensures |r| == |orders|
    ensures forall i :: 0 <= i < |orders| && Matches(orders[i], orderId, email) ==> r[i] == orders[i].(status := "cancelled")
    ensures forall i :: 0 <= i < |orders| && !Matches(orders[i], orderId, email) ==> r[i] == orders[i]
  {
    if |orders| == 0 then []
    else
      var rest := Cancelled(orders[1..], orderId, email);
      var head := if Matches(orders[0], orderId, email) then orders[0].(status := "cancelled") else orders[0];
      assert forall i :: 1 <= i < |orders| ==> ([head] + rest)[i] == rest[i - 1] && orders[i] == orders[1..][i - 1];
      [head] + rest
  }

  /** The `orders` and `order_items` tables, and the counter new order ids come from. */
  class OrderStore {
    var orders: seq<Order>
    var orderItems: seq<OrderItemRow>
    var nextId: nat

    ghost predicate Valid()
      reads this
    {
      KeysUnique(orders, (o: Order) => o.id) && forall i :: 0 <= i < |orders| ==> orders[i].id < nextId
    }

    constructor()
      ensures Valid() && orders == [] && orderItems == []
    {
      orders := [];
      orderItems := [];
      nextId := 0;
    }

    /**
     * `createOrder`. The fee is `getShippingRate` for the shipping city; `orderError` and
     * `itemsError` are the errors the two inserts report, if any. The order row stays when
     * the item insert fails, and the user's cart is cleared only after both succeed.
     */
    method CreateOrder(user: Option<User>, data: CreateOrderData, db: Shipping.ShippingDb, rateThrown: bool,
                       now: nat, draw: nat, date: string, orderError: Option<string>, itemsError: Option<string>,
                       cart: CartService.CartTable) returns (r: Result<Order>)
      requires draw < 1000
      requires Valid() && cart.Valid()
      modifies this, cart
      ensures Valid() && cart.Valid()
      ensures user.None? ==> r == Err(MustLogInToOrder)
      ensures user.None? || orderError.Some? ==> orders == old(orders) && orderItems == old(orderItems)
      ensures user.Some? && orderError.Some? ==> r == Err(orderError.value)
      ensures user.Some? && orderError.None? ==>
        var o := NewOrder(old(nextId), user.value, data, Shipping.ShippingRate(db, data.shippingAddress.city, rateThrown), now, draw, date);
        orders == old(orders) + [o] &&
        (itemsError.Some? ==> r == Err(itemsError.value) && orderItems == old(orderItems)) &&
        (itemsError.None? ==> r == Ok(o) && orderItems == old(orderItems) + ItemRows(o.id, data.items))
      ensures r.Ok? ==> cart.rows == Filter(old(cart.rows), (x: CartService.CartRow) => x.customerId != user.value.id)
      ensures r.Err? ==> cart.rows == old(cart.rows)
    {
      if user.None? {
        return Err(MustLogInToOrder);
      }
      var u := user.value;
      var fee := Shipping.ShippingRate(db, data.shippingAddress.city, rateThrown);
      if orderError.Some? {
        return Err(orderError.value);
      }
      var o := NewOrder(nextId, u, data, fee, now, draw, date);
      AppendKeysUnique(orders, o, (o: Order) => o.id);
      orders := orders + [o];
      nextId := nextId + 1;
      if itemsError.Some? {
        return Err(itemsError.value);
      }
      orderItems := orderItems + ItemRows(o.id, data.items);
      cart.ClearCart(Some(u.id));
      r := Ok(o);
    }

    /**
     * `cancelOrder`: only the signed-in user's pending order is cancelled; every failure leaves the table alone.
     * `fetchError` is a failure of the status query itself, `updateError` one of the `update` that follows.
     */
    method CancelOrder(user: Option<User>, orderId: nat, fetchError: Option<string>, updateError: Option<string>) returns (r: Outcome)
      requires Valid()
      modifies this
      ensures Valid() && orderItems == old(orderItems) && nextId == old(nextId)
      ensures r.Failed? ==> orders == old(orders)
      ensures user.None? ==> r == Failed(MustLogIn)
      ensures user.Some? && fetchError.Some? ==> r == Failed(fetchError.value)
      ensures user.Some? && fetchError.None? ==>
        var found := Single(old(orders), (o: Order) => Matches(o, orderId, user.value.email));
        (found.None? ==> r == Failed(NoSingleRow)) &&
        (found.Some? && found.value.status != "pending" ==> r == Failed(OnlyPending)) &&
        (found.Some? && found.value.status == "pending" && updateError.Some? ==> r == Failed(updateError.value)) &&
        (found.Some? && found.value.status == "pending" && updateError.None? ==> r == Done && orders == Cancelled(old(orders), orderId, user.value.email))
      ensures r.Done? <==> (user.Some? && fetchError.None? && updateError.None? &&
        exists i :: 0 <= i < |old(orders)| && Matches(old(orders)[i], orderId, user.value.email) && old(orders)[i].status == "pending")
    {
      if user.None? {
        return Failed(MustLogIn);
      }
      if fetchError.Some? {
        return Failed(fetchError.value);
      }
      var email := user.value.email;
      var p := (o: Order) => Matches(o, orderId, email);
      OneMatch(orders, orderId, email);
      var found := Single(orders, p);
      if found.None? {
        return Failed(NoSingleRow);
      }
      if found.value.status != "pending" {
        return Failed(OnlyPending);
      }
      if updateError.Some? {
        return Failed(updateError.value);
      }
      var updated := Cancelled(orders, orderId, email);
      assert forall i :: 0 <= i < |orders| ==> updated[i].id == orders[i].id;
      orders := updated;
      r := Done;
    }
  }

  /** With unique ids, `.single()` finds the matching order exactly when one exists, and it is that order. */
  lemma OneMatch(orders: seq<Order>, orderId: nat, email: string)
    requires KeysUnique(orders, (o: Order) => o.id)
    ensures var found := Single(orders, (o: Order) => Matches(o, orderId, email));
      (found.Some? <==> exists i :: 0 <= i < |orders| && Matches(orders[i], orderId, email)) &&
      (forall i :: 0 <= i < |orders| && Matches(orders[i], orderId, email) ==> found == Some(orders[i]))
  {
    var p := (o: Order) => Matches(o, orderId, email);
    if exists i :: 0 <= i < |orders| && Matches(orders[i], orderId, email) {
      var i :| 0 <= i < |orders| && Matches(orders[i], orderId, email);
      forall j | 0 <= j < |orders| && j != i ensures !p(orders[j]) {
        if j < i { assert orders[j].id != orders[i].id; } else { assert orders[i].id != orders[j].id; }
      }
      FilterOnly(orders, p, i);
    } else {
      FilterNone(orders, p);
    }
  }

  /**
   * The key of `order('order_date', { ascending: false })`: order dates are ISO timestamps of
   * one length, so ascending order of the negated character codes lists the latest date first.
   */
  function LatestFirst(o: Order): seq<int> {
    seq(|o.orderDate|, i requires 0 <= i < |o.orderDate| => -(o.orderDate[i] as int))
  }

  /** The orders placed under `email`. */
  function PlacedBy(orders: seq<Order>, email: string): seq<Order> {
    Filter(orders, (o: Order) => o.customerEmail == email)
  }

  /** `getOrders()`: nothing without a user; a query error is raised; otherwise the user's orders, latest first. */
  function GetOrders(orders: seq<Order>, user: Option<User>, dbError: Option<string>): (r: Result<seq<Order>>)
    ensures user.None? ==> r == Ok([])
    ensures r.Err? <==> user.Some? && dbError.Some?
    ensures r.Err? ==> r.message == dbError.value
  {
    if user.None? then Ok([])
    else if dbError.Some? then Err(dbError.value)
    else Ok(SortByKey(PlacedBy(orders, user.value.email), LatestFirst))
  }

  /** The list holds exactly the orders under the user's email, each once, latest first. */
  lemma GetOrdersSpec(orders: seq<Order>, user: User)
    ensures GetOrders(orders, Some(user), None).Ok?
    ensures var r := GetOrders(orders, Some(user), None).value;
      SortedBy(r, LatestFirst) && |r| == |PlacedBy(orders, user.email)|
      && forall o :: o in r <==> o in orders && o.customerEmail == user.email
  {
    SortByKeySpec(PlacedBy(orders, user.email), LatestFirst);
  }

  /** The item rows of an order, in insertion order: the embedded `order_items`. */
  function ItemsOf(orderItems: seq<OrderItemRow>, orderId: nat): seq<OrderItemRow> {
    Filter(orderItems, (x: OrderItemRow) => x.orderId == orderId)
  }

  /**
   * `getOrderById(orderId)`: fails without a user, raises a query error (`dbError`), and fails
   * unless exactly one of the user's orders has that id.
   */
  function GetOrderById(orders: seq<Order>, orderItems: seq<OrderItemRow>, user: Option<User>, orderId: nat, dbError: Option<string>): (r: Result<(Order, seq<OrderItemRow>)>)
    ensures user.None? ==> r == Err(MustLogIn)
    ensures user.Some? && dbError.Some? ==> r == Err(dbError.value)
    ensures r.Ok? ==> r.value.0 in orders && Matches(r.value.0, orderId, user.value.email)
    ensures r.Ok? ==> forall x :: x in r.value.1 <==> x in orderItems && x.orderId == orderId
  {
    if user.None? then Err(MustLogIn)
    else if dbError.Some? then Err(dbError.value)
    else match Single(orders, (o: Order) => Matches(o, orderId, user.value.email))
      case None => Err(NoSingleRow)
      case Some(o) => Ok((o, ItemsOf(orderItems, o.id)))
  }

  /** With unique order ids, a signed-in user gets an order by id exactly when one of theirs has it. */
  lemma GetOrderByIdSpec(orders: seq<Order>, orderItems: seq<OrderItemRow>, user: User, orderId: nat)
    requires KeysUnique(orders, (o: Order) => o.id)
    ensures GetOrderById(orders, orderItems, Some(user), orderId, None).Ok? <==>
      exists i :: 0 <= i < |orders| && Matches(orders[i], orderId, user.email)
    ensures GetOrderById(orders, orderItems, Some(user), orderId, None).Err? ==>
      GetOrderById(orders, orderItems, Some(user), orderId, None).message == NoSingleRow
  {
    OneMatch(orders, orderId, user.email);
  }

  /**
   * `getOrderByNumber(orderNumber)`: fails without a user, raises a query error (`dbError`), and
   * fails unless exactly one of the user's orders has that number.
   */
  function GetOrderByNumber(orders: seq<Order>, user: Option<User>, orderNumber: string, dbError: Option<string>): (r: Result<Order>)
    ensures user.None? ==> r == Err(MustLogIn)
    ensures user.Some? && dbError.Some? ==> r == Err(dbError.value)
    ensures r.Ok? ==> r.value in orders && r.value.orderNumber == orderNumber && r.value.customerEmail == user.value.email
    ensures user.Some? && dbError.None? ==> (r.Ok? <==> |Filter(orders, (o: Order) => o.orderNumber == orderNumber && o.customerEmail == user.value.email)| == 1)
  {
    if user.None? then Err(MustLogIn)
    else if dbError.Some? then Err(dbError.value)
    else match Single(orders, (o: Order) => o.orderNumber == orderNumber && o.customerEmail == user.value.email)
      case None => Err(NoSingleRow)
      case Some(o) => Ok(o)
  }

  /** A number two of the user's orders share is not found: the random suffix does not make numbers unique. */
  lemma SharedNumberNotFound(orders: seq<Order>, user: User, i: nat, j: nat)
    requires i < j < |orders|
    requires orders[i].orderNumber == orders[j].orderNumber
    requires orders[i].customerEmail == user.email && orders[j].customerEmail == user.email
    ensures GetOrderByNumber(orders, Some(user), orders[i].orderNumber, None) == Err(NoSingleRow)
  {
    FilterAtLeastTwo(orders, (o: Order) => o.orderNumber == orders[i].orderNumber && o.customerEmail == user.email, i, j);
  }
}
