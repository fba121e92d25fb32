/**
 * The checkout page (`src/pages/CheckoutPage.tsx`): the three-step form, the address it
 * preselects, the shipping fee refresh, and placing the order from the cart. The page's
 * state is a class; the name split, the order-item mapping and the totals are functions.
 */
module Checkout {
  import opened Common
  import opened Text
  import opened Catalog
  import Shipping
  import CartContext
  import CartService
  import Orders
  import Profiles

  datatype Step = ShippingStep | PaymentStep | ConfirmStep

  /** The three buttons that move between steps. */
  datatype Event = Continue | SubmitPayment | Back

  /** The position of a step in the progress bar. */
  function StepIndex(s: Step): nat {
    match s
    case ShippingStep => 0
    case PaymentStep => 1
    case ConfirmStep => 2
  }

  /**
   * The step after a button press. "Continue to Payment" is offered only on the shipping
   * step and only when `canContinue`; "Review Order" submits the payment form; the Back
   * buttons step from payment to shipping and from confirmation to payment.
   */
  function NextStep(s: Step, e: Event, canContinue: bool): (r: Step)
    ensures StepIndex(r) <= StepIndex(s) + 1 && StepIndex(s) <= StepIndex(r) + 1
    ensures e == Back ==> StepIndex(r) + 1 == StepIndex(s) || (s == ShippingStep && r == s)
    ensures e != Back ==> StepIndex(s) <= StepIndex(r)
  {
    match (s, e)
    case (ShippingStep, Continue) => if canContinue then PaymentStep else ShippingStep
    case (PaymentStep, SubmitPayment) => ConfirmStep
    case (PaymentStep, Back) => ShippingStep
    case (ConfirmStep, Back) => PaymentStep
    case _ => s
  }

  /** Confirmation is reached only by submitting the payment step, and payment only by continuing from shipping or going back from confirmation. */
  lemma StepEntry(s: Step, e: Event, c: bool)
    ensures NextStep(s, e, c) == ConfirmStep && s != ConfirmStep ==> s == PaymentStep && e == SubmitPayment
    ensures NextStep(s, e, c) == PaymentStep && s != PaymentStep ==>
      (s == ShippingStep && e == Continue && c) || (s == ConfirmStep && e == Back)
  {
  }

  /** Back undoes each forward move. */
  lemma BackUndoesForward(s: Step, e: Event, c: bool)
    requires e != Back && NextStep(s, e, c) != s
    ensures NextStep(NextStep(s, e, c), Back, c) == s
  {
  }

  /** The saved address chosen in the form, or the new-address form. */
  datatype AddressChoice = Unset | NewAddress | Saved(id: nat)

  /**
   * `addresses.find(a => a.is_default) || addresses[0]`: the first flagged address, else
   * the first one; with none the new-address form is chosen.
   */
  function DefaultChoice(addrs: seq<Profiles.AddressRow>): (r: AddressChoice)
    ensures r != Unset
    ensures r == NewAddress <==> |addrs| == 0
    ensures (exists i :: 0 <= i < |addrs| && addrs[i].isDefault) ==>
      exists i :: 0 <= i < |addrs| && addrs[i].isDefault && r == Saved(addrs[i].id) && forall j :: 0 <= j < i ==> !addrs[j].isDefault
    ensures |addrs| > 0 && (forall i :: 0 <= i < |addrs| ==> !addrs[i].isDefault) ==> r == Saved(addrs[0].id)
  {
    match Find(addrs, (a: Profiles.AddressRow) => a.isDefault)
    case Some(i) => Saved(addrs[i].id)
    case None => if |addrs| > 0 then Saved(addrs[0].id) else NewAddress
  }

  /** `getAddresses` puts defaults first, so the page always preselects the first address of that list. */
  lemma DefaultChoiceIsFirstListed(rows: seq<Profiles.AddressRow>, user: string)
    ensures var s := Profiles.Addresses(rows, Some(user));
      DefaultChoice(s) == if |s| > 0 then Saved(s[0].id) else NewAddress
  {
    var s := Profiles.Addresses(rows, Some(user));
    Profiles.AddressesSpec(rows, Some(user));
    if exists i :: 0 <= i < |s| && s[i].isDefault {
      var i :| 0 <= i < |s| && s[i].isDefault;
      if i > 0 {
        assert s[i].isDefault ==> s[0].isDefault;
      }
    }
  }

  /** The form's fields. */
  datatype ShippingInfo = ShippingInfo(
    fullName: string, email: string, phone: string, address: string, city: string, province: string, postalCode: string)

  /** The fields a saved address fills in; the e-mail is kept. */
  function FromSaved(a: Profiles.AddressRow, email: string): (r: ShippingInfo)
    ensures r.fullName == a.details.fullName && r.city == a.details.city && r.email == email
    ensures r.postalCode == (if a.details.postalCode.Some? then a.details.postalCode.value else "")
  {
    var d := a.details;
    ShippingInfo(d.fullName, email, d.phone, d.streetAddress, d.city, d.province,
                 if d.postalCode.Some? then d.postalCode.value else "")
  }

  /** "Continue to Payment" is enabled only when city, street address and full name are all filled in. */
  predicate CanContinue(info: ShippingInfo) {
    info.city != "" && info.address != "" && info.fullName != ""
  }

  /**
   * `first_name`: the text before the first space, or the whole name when that is empty;
   * `last_name`: the rest of the space-separated pieces rejoined with single spaces.
   */
  function SplitName(fullName: string): (string, string) {
    var pieces := Split(fullName, ' ');
    (if pieces[0] == "" then fullName else pieces[0], Join(pieces[1..], ' '))
  }

  /** A name without a space is all first name. */
  lemma SplitNameNoSpace(fullName: string)
    requires ' ' !in fullName
    ensures SplitName(fullName) == (fullName, "")
  {
    SplitNoSeparator(fullName, ' ');
  }

  /** A name with a space and no leading space is first name, one space, last name. */
  lemma SplitNameWithSpace(fullName: string)
    requires ' ' in fullName && fullName[0] != ' '
    ensures SplitName(fullName).0 + " " + SplitName(fullName).1 == fullName
    ensures ' ' !in SplitName(fullName).0 && SplitName(fullName).0 != ""
  {
    var k :| 0 <= k < |fullName| && fullName[k] == ' ';
    assert fullName[k..k + 1] == " ";
    ContainsAt(fullName, " ", k);
    var i := IndexOf(fullName, " ").value;
    var a, t := fullName[..i], fullName[i + 1..];
    assert fullName[i..i + 1] == " ";
    forall j | 0 <= j < i ensures a[j] != ' ' {
      assert !OccursAt(fullName, " ", j);
      assert fullName[j..j + 1] == [fullName[j]];
    }
    assert fullName == a + [' '] + t;
    SplitAtSeparator(a, t, ' ');
    JoinSplit(t, ' ');
    assert i > 0;
    assert Split(fullName, ' ')[1..] == Split(t, ' ');
  }

  /** `variant_id ? Number(variant_id) : undefined`. */
  function LineVariantId(item: CartContext.CartItem): Option<Id> {
    if item.variantId.Some? && IdTruthy(item.variantId.value) then item.variantId else None
  }

  /** `item.variant?.sku || item.product?.sku`. */
  function LineSku(item: CartContext.CartItem): Option<string> {
    if item.variant.Some? && item.variant.value.sku != "" then Some(item.variant.value.sku)
    else if item.product.Some? then Some(item.product.value.sku)
    else None
  }

  /** `item.product?.name || 'Unknown Product'`. */
  function LineName(item: CartContext.CartItem): string {
    if item.product.Some? && item.product.value.name != "" then item.product.value.name else "Unknown Product"
  }

  /** The order line built from one cart item; `unit_price` is `variant?.price || product?.price || 0`. */
  function ToOrderLine(item: CartContext.CartItem): (r: Orders.OrderLine)
    ensures r.quantity == item.quantity && r.productId == item.productId
    ensures r.unitPrice == CartContext.ChargedUnitPrice(item)
    ensures r.productName != ""
  {
    Orders.OrderLine(item.productId, LineVariantId(item), LineName(item), LineSku(item), item.quantity,
                     FirstTruthy([CartContext.VariantPrice(item), if item.product.Some? then item.product.value.price else Undef], 0))
  }

  /** `cart.items.map(...)`: one order line per cart item, in order. */
  function ToOrderItems(items: seq<CartContext.CartItem>): (r: seq<Orders.OrderLine>)
    ensures |r| == |items|
    ensures forall i :: 0 <= i < |items| ==> r[i] == ToOrderLine(items[i])
  {
    if |items| == 0 then [] else [ToOrderLine(items[0])] + ToOrderItems(items[1..])
  }

  /** The order's subtotal is the cart priced as checkout charges it, line by line. */
  lemma {:induction false} OrderSubtotalIsCartTotal(items: seq<CartContext.CartItem>)
    ensures Orders.Subtotal(ToOrderItems(items)) == CartContext.ChargedTotal(items)
  {
    if |items| > 0 {
      OrderSubtotalIsCartTotal(items[1..]);
      assert ToOrderItems(items)[1..] == ToOrderItems(items[1..]);
    }
  }

  /** The shipping address sent with the order. */
  function OrderAddress(info: ShippingInfo): (r: Orders.Address)
    ensures r.city == info.city && r.country == "Philippines"
  {
    var (first, last) := SplitName(info.fullName);
    Orders.Address(first, last, info.phone, info.address, None, info.city, info.province, info.postalCode, "Philippines")
  }

  function OrderData(info: ShippingInfo, items: seq<CartContext.CartItem>, paymentMethod: string): Orders.CreateOrderData {
    Orders.CreateOrderData(OrderAddress(info), ToOrderItems(items), paymentMethod, "")
  }

  /** The address saved after an order, flagged as the new default. */
  function SavedDetails(info: ShippingInfo): Profiles.AddressDetails {
    Profiles.AddressDetails(None, info.fullName, info.phone, info.address, None, info.city, info.province, None, Some(info.postalCode))
  }

  /** The charged cart total plus the rate of the order's city is the total the new order records. */
  lemma ChargedTotalIsOrderTotal(id: nat, user: Orders.User, info: ShippingInfo, items: seq<CartContext.CartItem>, pm: string,
                                 db: Shipping.ShippingDb, thrown: bool, now: nat, draw: nat, date: string)
    requires draw < 1000
    ensures var fee := Shipping.ShippingRate(db, info.city, thrown);
      CartContext.ChargedTotal(items) + fee == Orders.NewOrder(id, user, OrderData(info, items, pm), fee, now, draw, date).total
  {
    OrderSubtotalIsCartTotal(items);
  }

  /**
   * `totalAmount` (the cart's `total` plus the fee), once the fee is the rate of the order's city,
   * is the total the new order records, provided every line is listed at the price checkout charges.
   */
  lemma DisplayedTotalIsOrderTotal(id: nat, user: Orders.User, info: ShippingInfo, items: seq<CartContext.CartItem>, pm: string,
                                   db: Shipping.ShippingDb, thrown: bool, now: nat, draw: nat, date: string)
    requires draw < 1000
    requires forall i :: 0 <= i < |items| ==> CartContext.ListedUnitPrice(items[i]) == CartContext.ChargedUnitPrice(items[i])
    ensures var fee := Shipping.ShippingRate(db, info.city, thrown);
      CartContext.ListedTotal(items) + fee == Orders.NewOrder(id, user, OrderData(info, items, pm), fee, now, draw, date).total
  {
    CartContext.ListedTotalIsChargedTotal(items);
    ChargedTotalIsOrderTotal(id, user, info, items, pm, db, thrown, now, draw, date);
  }

  /**
   * A signed-in cart of one line, mapped from the database with `base_price` set to
   * `price || regular_price`, for a product with price 0 and regular price 600: the page shows
   * `totalAmount` as 600 plus the fee, while the order placed from it records the fee alone.
   */
  lemma DisplayedTotalCounterexample(id: nat, user: Orders.User, info: ShippingInfo, item: CartContext.CartItem, pm: string,
                                     db: Shipping.ShippingDb, thrown: bool, now: nat, draw: nat, date: string)
    requires draw < 1000
    requires item.variant.None? && item.product.Some? && item.quantity == 1
    requires item.product.value.price == Val(0) && item.product.value.regularPrice == Val(600)
    requires item.product.value.basePrice == Val(600)
    ensures var fee := Shipping.ShippingRate(db, info.city, thrown);
      CartContext.ListedTotal([item]) + fee == fee + 600 &&
      Orders.NewOrder(id, user, OrderData(info, [item], pm), fee, now, draw, date).total == fee
  {
    CartContext.MappedLineCounterexample(item);
    var items := [item];
    assert CartContext.ListedTotal(items) == CartContext.ListedLineTotal(item) + SumOf(items[1..], CartContext.ListedLineTotal);
    assert CartContext.ChargedTotal(items) == CartContext.ChargedLineTotal(item) + SumOf(items[1..], CartContext.ChargedLineTotal);
    ChargedTotalIsOrderTotal(id, user, info, items, pm, db, thrown, now, draw, date);
  }

  const LoginRequired := "You must be logged in to place an order."
  const PlaceFailed := "Failed to place order. Please try again."

  /** The signed-in shopper: the order's user and the name on the account. */
  datatype Shopper = Shopper(user: Orders.User, fullName: string)

  /** The checkout form. */
  class CheckoutForm {
    const shopper: Option<Shopper>
    var step: Step
    var savedAddresses: seq<Profiles.AddressRow>
    var selectedAddressId: AddressChoice
    var shippingInfo: ShippingInfo
    var paymentMethod: string
    var shippingFee: int

    /** The fields of the new-address form: the account's name and e-mail, the rest empty. */
    function BlankInfo(): ShippingInfo
      reads this
    {
      var name := if shopper.Some? then shopper.value.fullName else "";
      var email := if shopper.Some? then shopper.value.user.email else "";
      ShippingInfo(name, email, "", "", "", "", "")
    }

    constructor(s: Option<Shopper>)
      ensures shopper == s && step == ShippingStep && savedAddresses == [] && selectedAddressId == Unset
      ensures shippingInfo == BlankInfo() && paymentMethod == "cod" && shippingFee == 0
    {
      shopper := s;
      step := ShippingStep;
      savedAddresses := [];
      selectedAddressId := Unset;
      shippingInfo := ShippingInfo(if s.Some? then s.value.fullName else "", if s.Some? then s.value.user.email else "", "", "", "", "", "");
      paymentMethod := "cod";
      shippingFee := 0;
    }

    /**
     * `loadSavedAddresses` with the result of `getAddresses`: the preselected address fills
     * the form; no user, no address or a load error selects the new-address form.
     */
    method LoadSavedAddresses(loaded: Result<seq<Profiles.AddressRow>>)
      modifies this
      ensures step == old(step) && paymentMethod == old(paymentMethod) && shippingFee == old(shippingFee)
      ensures shopper.None? || loaded.Err? ==>
        selectedAddressId == NewAddress && savedAddresses == old(savedAddresses) && shippingInfo == old(shippingInfo)
      ensures shopper.Some? && loaded.Ok? ==> savedAddresses == loaded.value && selectedAddressId == DefaultChoice(loaded.value)
      ensures shopper.Some? && loaded.Ok? && |loaded.value| > 0 ==>
        exists i :: 0 <= i < |loaded.value| && selectedAddressId == Saved(loaded.value[i].id) &&
          shippingInfo == FromSaved(loaded.value[i], old(shippingInfo).email)
      ensures shopper.Some? && loaded.Ok? && |loaded.value| == 0 ==> shippingInfo == old(shippingInfo)
    {
      if shopper.None? || loaded.Err? {
        selectedAddressId := NewAddress;
        return;
      }
      var addrs := loaded.value;
      savedAddresses := addrs;
      var found := Find(addrs, (a: Profiles.AddressRow) => a.isDefault);
      if found.Some? {
        var a := addrs[found.value];
        selectedAddressId := Saved(a.id);
        shippingInfo := FromSaved(a, shippingInfo.email);
      } else if |addrs| > 0 {
        selectedAddressId := Saved(addrs[0].id);
        shippingInfo := FromSaved(addrs[0], shippingInfo.email);
      } else {
        selectedAddressId := NewAddress;
      }
    }

    /** Picking a saved address card copies it into the form with the account's e-mail. */
    method SelectSaved(a: Profiles.AddressRow)
      modifies this
      ensures selectedAddressId == Saved(a.id) && shippingInfo == FromSaved(a, BlankInfo().email)
      ensures step == old(step) && savedAddresses == old(savedAddresses) && shippingFee == old(shippingFee) && paymentMethod == old(paymentMethod)
    {
      selectedAddressId := Saved(a.id);
      shippingInfo := FromSaved(a, if shopper.Some? then shopper.value.user.email else "");
    }

    /** Picking "Use a new address" resets the form. */
    method SelectNew()
      modifies this
      ensures selectedAddressId == NewAddress && shippingInfo == BlankInfo()
      ensures step == old(step) && savedAddresses == old(savedAddresses) && shippingFee == old(shippingFee) && paymentMethod == old(paymentMethod)
    {
      selectedAddressId := NewAddress;
      shippingInfo := BlankInfo();
    }

    /** The fee effect: a city longer than two characters fetches its rate; otherwise the fee stays. */
    method RefreshShippingFee(db: Shipping.ShippingDb, thrown: bool)
      modifies this
      ensures |shippingInfo.city| > 2 ==> shippingFee == Shipping.ShippingRate(db, shippingInfo.city, thrown)
      ensures |shippingInfo.city| <= 2 ==> shippingFee == old(shippingFee)
      ensures step == old(step) && shippingInfo == old(shippingInfo) && selectedAddressId == old(selectedAddressId)
      ensures savedAddresses == old(savedAddresses) && paymentMethod == old(paymentMethod)
    {
      if shippingInfo.city != "" && |shippingInfo.city| > 2 {
        shippingFee := Shipping.ShippingRate(db, shippingInfo.city, thrown);
      }
    }

    /** `totalAmount`: the cart's `total` (its listed prices) plus the current fee. */
    function TotalAmount(cart: CartContext.Cart): int
      reads this, cart
    {
      cart.Total() + shippingFee
    }

    /** A press of one of the step buttons. */
    method Press(e: Event)
      modifies this
      ensures step == NextStep(old(step), e, CanContinue(shippingInfo))
      ensures shippingInfo == old(shippingInfo) && selectedAddressId == old(selectedAddressId) && shippingFee == old(shippingFee)
      ensures savedAddresses == old(savedAddresses) && paymentMethod == old(paymentMethod)
    {
      match e
      case Continue =>
        if step == ShippingStep && CanContinue(shippingInfo) {
          step := PaymentStep;
        }
      case SubmitPayment =>
        if step == PaymentStep {
          step := ConfirmStep;
        }
      case Back =>
        if step == PaymentStep {
          step := ShippingStep;
        } else if step == ConfirmStep {
          step := PaymentStep;
        }
    }

    /**
     * `handlePlaceOrder`. Without a user nothing is created. Otherwise the order is created
     * from the cart; when that fails nothing else happens. After a created order the address
     * is saved as the new default (its failure, `addressError`, is ignored) and the cart is cleared.
     * A failed item insert (`itemsError`) reports the failure but leaves the new pending order behind.
     * `clearError` is the unnoticed failure of the default-clearing update inside the saved-address step.
     */
    method PlaceOrder(store: Orders.OrderStore, book: Profiles.AddressBook, table: CartService.CartTable, cart: CartContext.Cart,
                      db: Shipping.ShippingDb, rateThrown: bool, now: nat, draw: nat, date: string,
                      orderError: Option<string>, itemsError: Option<string>, clearError: Option<string>, addressError: Option<string>)
      returns (r: Result<Orders.Order>)
      requires draw < 1000
      requires store.Valid() && book.Valid() && table.Valid()
      modifies store, book, table, cart
      ensures store.Valid() && book.Valid() && table.Valid()
      ensures shopper.None? ==> r == Err(LoginRequired)
      ensures shopper.None? ==> store.orders == old(store.orders) && book.rows == old(book.rows) && cart.items == old(cart.items)
      ensures r.Err? ==> store.orderItems == old(store.orderItems)
      ensures shopper.Some? && r.Err? ==> r == Err(PlaceFailed) && book.rows == old(book.rows) && cart.items == old(cart.items)
      ensures r.Ok? <==> shopper.Some? && orderError.None? && itemsError.None?
      ensures shopper.Some? && orderError.Some? ==> store.orders == old(store.orders)
      ensures shopper.Some? && orderError.None? && itemsError.Some? ==>
        store.orders == old(store.orders) + [Orders.NewOrder(old(store.nextId), shopper.value.user, OrderData(old(shippingInfo), old(cart.items), old(paymentMethod)),
                                                              Shipping.ShippingRate(db, shippingInfo.city, rateThrown), now, draw, date)]
      ensures r.Ok? ==> r.value.subtotal == CartContext.ChargedTotal(old(cart.items)) && r.value.total == CartContext.ChargedTotal(old(cart.items)) + Shipping.ShippingRate(db, shippingInfo.city, rateThrown)
      ensures r.Ok? ==> store.orders == old(store.orders) + [r.value] && cart.items == []
      ensures r.Ok? ==> store.orderItems == old(store.orderItems) + Orders.ItemRows(r.value.id, ToOrderItems(old(cart.items)))
      ensures r.Ok? ==>
        var base := Profiles.ClearStep(old(book.rows), shopper.value.user.id, None, clearError);
        (addressError.None? ==> book.rows == base + [Profiles.AddressRow(old(book.nextId), shopper.value.user.id, SavedDetails(shippingInfo), true, now, now)]) &&
        (addressError.Some? ==> book.rows == base)
      ensures r.Ok? && clearError.None? && addressError.None? ==>
        book.rows == Profiles.CreateRows(old(book.rows), old(book.nextId), shopper.value.user.id, SavedDetails(shippingInfo), true, now)
      ensures r.Ok? && clearError.None? && Profiles.OneDefaultEach(old(book.rows)) ==> Profiles.OneDefaultEach(book.rows)
      ensures r.Ok? ==> table.rows == Filter(old(table.rows), (x: CartService.CartRow) => x.customerId != shopper.value.user.id)
      ensures r.Err? ==> table.rows == old(table.rows)
    {
      if shopper.None? {
        return Err(LoginRequired);
      }
      var u := shopper.value.user;
      var data := OrderData(shippingInfo, cart.items, paymentMethod);
      OrderSubtotalIsCartTotal(cart.items);
      var created := store.CreateOrder(Some(u), data, db, rateThrown, now, draw, date, orderError, itemsError, table);
      if created.Err? {
        return Err(PlaceFailed);
      }
      var _ := book.CreateAddress(Some(u.id), SavedDetails(shippingInfo), true, now, clearError, addressError);
      cart.ClearCart();
      r := created;
    }
  }
}
