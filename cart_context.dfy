/**
 * The guest cart of `src/context/CartContext.tsx`: a list of items keyed by product and
 * variant, replaced by every operation, with totals derived from the items.
 * The signed-in branches that call the cart service are not part of this model.
 */
module CartContext {
  import opened Common
  import opened Text
  import opened Catalog

  /** A cart line. `id` is the line's own id; the product and variant are the records it was added with. */
  datatype CartItem = CartItem(
    id: string,
    productId: Id,
    variantId: Option<Id>,
    quantity: int,
    product: Option<Product>,
    variant: Option<Variant>)

  /** `variant?.id`. */
  function VariantIdOf(v: Option<Variant>): Option<Id> {
    if v.Some? then Some(v.value.id) else None
  }

  /** The key the guest cart merges on: `product_id` and `variant_id`, an absent variant matching only an absent one. */
  function LineKey(item: CartItem): (Id, Option<Id>) {
    (item.productId, item.variantId)
  }

  /** `${product.id}-${variant?.id || 'default'}-${Date.now()}`, the clock reading given as text. */
  function LocalItemId(p: Product, v: Option<Variant>, now: string): string {
    IdText(p.id) + "-" + (if v.Some? && IdTruthy(v.value.id) then IdText(v.value.id) else "default") + "-" + now
  }

  /** The line a new product/variant pair gets. */
  function NewItem(p: Product, v: Option<Variant>, q: int, now: string): CartItem {
    CartItem(LocalItemId(p, v, now), p.id, VariantIdOf(v), q, Some(p), v)
  }

  /** The position `findIndex` returns for the pair, if any. */
  function LineIndex(items: seq<CartItem>, productId: Id, variantId: Option<Id>): (r: Option<nat>)
    ensures r.Some? ==> r.value < |items| && LineKey(items[r.value]) == (productId, variantId)
    ensures r.Some? ==> forall j :: 0 <= j < r.value ==> LineKey(items[j]) != (productId, variantId)
    ensures r.None? ==> forall j :: 0 <= j < |items| ==> LineKey(items[j]) != (productId, variantId)
  {
    Find(items, (it: CartItem) => LineKey(it) == (productId, variantId))
  }

  /** The items after `addToLocalCart(p, v, q)`. */
  function AddLocal(items: seq<CartItem>, p: Product, v: Option<Variant>, q: int, now: string): seq<CartItem> {
    match LineIndex(items, p.id, VariantIdOf(v))
    case Some(k) => items[k := items[k].(quantity := items[k].quantity + q)]
    case None => items + [NewItem(p, v, q, now)]
  }

  /** The items after `removeFromLocalCart(itemId)`. */
  function RemoveLocal(items: seq<CartItem>, itemId: string): seq<CartItem> {
    Filter(items, (it: CartItem) => it.id != itemId)
  }

  /** The quantity `updateLocalQuantity(itemId, q)` gives an item. */
  function QuantityAfter(item: CartItem, itemId: string, q: int): int {
    if item.id == itemId then q else item.quantity
  }

  /** The items after `updateLocalQuantity(itemId, q)`. */
  function UpdateLocal(items: seq<CartItem>, itemId: string, q: int): (r: seq<CartItem>)
    ensures |r| == |items|
  {
    if |items| == 0 then []
    else [items[0].(quantity := QuantityAfter(items[0], itemId, q))] + UpdateLocal(items[1..], itemId, q)
  }

  /** The items after the guest path of `updateQuantity(itemId, q)`. */
  function SetQuantity(items: seq<CartItem>, itemId: string, q: int): seq<CartItem> {
    if q <= 0 then RemoveLocal(items, itemId) else UpdateLocal(items, itemId, q)
  }

  /** `isInCart(productId, variantId)`. */
  function IsInCart(items: seq<CartItem>, productId: Id, variantId: Option<Id>): (r: bool)
    ensures r <==> exists i :: 0 <= i < |items| && items[i].productId == productId && items[i].variantId == variantId
  {
    LineIndex(items, productId, variantId).Some?
  }

  function Quantity(item: CartItem): int {
    item.quantity
  }

  /** `itemCount`: the sum of the quantities. */
  function ItemCount(items: seq<CartItem>): int {
    SumOf(items, Quantity)
  }

  /** `item.variant?.price`. */
  function VariantPrice(item: CartItem): JsNum {
    if item.variant.Some? then item.variant.value.price else Undef
  }

  /** The unit price line 109 uses: `variant?.price || product?.base_price || 0`. */
  function ListedUnitPrice(item: CartItem): int {
    FirstTruthy([VariantPrice(item), if item.product.Some? then item.product.value.basePrice else Undef], 0)
  }

  /** The unit price checkout charges for the line: `variant?.price || product?.price || 0`. */
  function ChargedUnitPrice(item: CartItem): int {
    FirstTruthy([VariantPrice(item), if item.product.Some? then item.product.value.price else Undef], 0)
  }

  function ListedLineTotal(item: CartItem): int {
    ListedUnitPrice(item) * item.quantity
  }

  function ChargedLineTotal(item: CartItem): int {
    ChargedUnitPrice(item) * item.quantity
  }

  /** `total` as lines 107-111 compute it. */
  function ListedTotal(items: seq<CartItem>): int {
    SumOf(items, ListedLineTotal)
  }

  /** The total with each line priced as checkout prices it: what an order placed from the cart records. */
  function ChargedTotal(items: seq<CartItem>): int {
    SumOf(items, ChargedLineTotal)
  }

  /** An existing pair has its quantity raised by `q` and nothing else changes; the item count rises by `q`. */
  lemma AddExistingSpec(items: seq<CartItem>, p: Product, v: Option<Variant>, q: int, now: string, k: nat)
    requires LineIndex(items, p.id, VariantIdOf(v)) == Some(k)
    ensures |AddLocal(items, p, v, q, now)| == |items|
    ensures AddLocal(items, p, v, q, now)[k] == items[k].(quantity := items[k].quantity + q)
    ensures forall j :: 0 <= j < |items| && j != k ==> AddLocal(items, p, v, q, now)[j] == items[j]
    ensures ItemCount(AddLocal(items, p, v, q, now)) == ItemCount(items) + q
  {
    SumOfUpdate(items, k, items[k].(quantity := items[k].quantity + q), Quantity);
  }

  /** A new pair is appended as one line with quantity `q`, the product and the variant; the item count rises by `q`. */
  lemma AddNewSpec(items: seq<CartItem>, p: Product, v: Option<Variant>, q: int, now: string)
    requires !IsInCart(items, p.id, VariantIdOf(v))
    ensures AddLocal(items, p, v, q, now) == items + [NewItem(p, v, q, now)]
    ensures ItemCount(AddLocal(items, p, v, q, now)) == ItemCount(items) + q
  {
    SumOfAppend(items, [NewItem(p, v, q, now)], Quantity);
  }

  /** After adding, the pair is in the cart, and the cart still has one line per pair. */
  lemma AddKeepsLinesUnique(items: seq<CartItem>, p: Product, v: Option<Variant>, q: int, now: string)
    requires KeysUnique(items, LineKey)
    ensures KeysUnique(AddLocal(items, p, v, q, now), LineKey)
  {
    var r := AddLocal(items, p, v, q, now);
    match LineIndex(items, p.id, VariantIdOf(v))
    case Some(k) =>
      forall i | 0 <= i < |r| ensures LineKey(r[i]) == LineKey(items[i]) {
      }
    case None =>
      AppendKeysUnique(items, NewItem(p, v, q, now), LineKey);
  }

  /** Removal keeps exactly the lines with another id, in order, and keeps one line per pair. */
  lemma RemoveSpec(items: seq<CartItem>, itemId: string)
    ensures forall x :: x in RemoveLocal(items, itemId) <==> x in items && x.id != itemId
    ensures KeysUnique(items, LineKey) ==> KeysUnique(RemoveLocal(items, itemId), LineKey)
  {
    if KeysUnique(items, LineKey) {
      FilterKeysUnique(items, (it: CartItem) => it.id != itemId, LineKey);
    }
  }

  /** Setting a quantity changes only the quantity of the lines with that id. */
  lemma {:induction false} UpdateLocalSpec(items: seq<CartItem>, itemId: string, q: int)
    ensures forall i :: 0 <= i < |items| ==>
      UpdateLocal(items, itemId, q)[i] == items[i].(quantity := QuantityAfter(items[i], itemId, q))
    ensures forall i :: 0 <= i < |items| ==> LineKey(UpdateLocal(items, itemId, q)[i]) == LineKey(items[i])
  {
    if |items| > 0 {
      UpdateLocalSpec(items[1..], itemId, q);
      var r := UpdateLocal(items, itemId, q);
      forall i | 1 <= i < |items|
        ensures r[i] == items[i].(quantity := QuantityAfter(items[i], itemId, q))
      {
        assert r[i] == UpdateLocal(items[1..], itemId, q)[i - 1];
        assert items[1..][i - 1] == items[i];
      }
    }
  }

  /** Setting a quantity keeps which pairs are in the cart, and keeps one line per pair. */
  lemma UpdateLocalKeepsLines(items: seq<CartItem>, itemId: string, q: int, productId: Id, variantId: Option<Id>)
    ensures IsInCart(UpdateLocal(items, itemId, q), productId, variantId) == IsInCart(items, productId, variantId)
    ensures KeysUnique(items, LineKey) ==> KeysUnique(UpdateLocal(items, itemId, q), LineKey)
  {
    UpdateLocalSpec(items, itemId, q);
    var r := UpdateLocal(items, itemId, q);
    if IsInCart(items, productId, variantId) {
      var i :| 0 <= i < |items| && items[i].productId == productId && items[i].variantId == variantId;
      assert LineKey(r[i]) == LineKey(items[i]);
    }
    if IsInCart(r, productId, variantId) {
      var i :| 0 <= i < |r| && r[i].productId == productId && r[i].variantId == variantId;
      assert LineKey(r[i]) == LineKey(items[i]);
    }
  }

  /** A quantity of zero or less removes the line instead of storing it; a positive one is stored. */
  lemma UpdateQuantitySpec(items: seq<CartItem>, itemId: string, q: int)
    ensures q <= 0 ==> forall x :: x in SetQuantity(items, itemId, q) ==> x.id != itemId
    ensures q > 0 ==> forall i :: 0 <= i < |items| && items[i].id == itemId ==> SetQuantity(items, itemId, q)[i].quantity == q
  {
    UpdateLocalSpec(items, itemId, q);
  }

  /**
   * Line 109 prices a line without a variant price by `base_price`, a field the catalogue
   * queries do not select: every such line then counts 0 towards `total`.
   */
  lemma {:induction false} ListedTotalIgnoresProductPrice(items: seq<CartItem>)
    requires forall i :: 0 <= i < |items| ==> items[i].variant.None?
    requires forall i :: 0 <= i < |items| ==> items[i].product.Some? && items[i].product.value.basePrice == Undef
    ensures ListedTotal(items) == 0
  {
    if |items| > 0 {
      assert ListedUnitPrice(items[0]) == 0;
      ListedTotalIgnoresProductPrice(items[1..]);
    }
  }

  /** A single simple product at 500 with quantity 1 shows a total of 0, though 500 is charged. */
  lemma ListedTotalCounterexample(p: Product, now: string)
    requires p.price == Val(500) && p.basePrice == Undef
    ensures ListedTotal(AddLocal([], p, None, 1, now)) == 0
    ensures ChargedTotal(AddLocal([], p, None, 1, now)) == 500
  {
    var it := NewItem(p, None, 1, now);
    assert AddLocal([], p, None, 1, now) == [it];
    var charged: seq<JsNum> := [Undef, p.price];
    assert charged[1..] == [p.price];
    assert ChargedUnitPrice(it) == FirstTruthy(charged, 0) == 500;
    assert ListedUnitPrice(it) == 0;
    assert ChargedTotal([it]) == ChargedLineTotal(it) + SumOf([it][1..], ChargedLineTotal);
    assert ListedTotal([it]) == ListedLineTotal(it) + SumOf([it][1..], ListedLineTotal);
  }

  /**
   * A signed-in line, whose `base_price` the database mapping sets to `price || regular_price || 0`:
   * a product with price 0 and regular price 600 is listed at 600 while checkout charges 0.
   */
  lemma MappedLineCounterexample(item: CartItem)
    requires item.variant.None? && item.product.Some?
    requires item.product.value.price == Val(0) && item.product.value.regularPrice == Val(600)
    requires item.product.value.basePrice == Val(600)
    ensures ListedUnitPrice(item) == 600 && ChargedUnitPrice(item) == 0
  {
    var listed: seq<JsNum> := [Undef, item.product.value.basePrice];
    var charged: seq<JsNum> := [Undef, item.product.value.price];
    assert listed[1..] == [Val(600)] && charged[1..] == [Val(0)];
    assert ListedUnitPrice(item) == FirstTruthy(listed, 0) == FirstTruthy(listed[1..], 0) == 600;
    assert ChargedUnitPrice(item) == FirstTruthy(charged, 0) == FirstTruthy(charged[1..], 0) == FirstTruthy(charged[1..][1..], 0) == 0;
  }

  /** Where every line's listed unit price is the price checkout charges, the total shown is the amount charged. */
  lemma {:induction false} ListedTotalIsChargedTotal(items: seq<CartItem>)
    requires forall i :: 0 <= i < |items| ==> ListedUnitPrice(items[i]) == ChargedUnitPrice(items[i])
    ensures ListedTotal(items) == ChargedTotal(items)
  {
    if |items| > 0 {
      ListedTotalIsChargedTotal(items[1..]);
    }
  }

  /** Adding a line adds its charged amount to the total: `q` times the unit price of the line it lands on. */
  lemma AddChargedTotal(items: seq<CartItem>, p: Product, v: Option<Variant>, q: int, now: string)
    ensures ChargedTotal(AddLocal(items, p, v, q, now)) ==
      ChargedTotal(items) + q * (match LineIndex(items, p.id, VariantIdOf(v))
                                 case Some(k) => ChargedUnitPrice(items[k])
                                 case None => ChargedUnitPrice(NewItem(p, v, q, now)))
  {
    match LineIndex(items, p.id, VariantIdOf(v))
    case Some(k) =>
      var x := items[k].(quantity := items[k].quantity + q);
      SumOfUpdate(items, k, x, ChargedLineTotal);
      RaisedLineTotal(items[k], q);
    case None =>
      SumOfAppend(items, [NewItem(p, v, q, now)], ChargedLineTotal);
      NewLineTotal(p, v, q, now);
  }

  /** Raising a line's quantity by `q` raises its charged amount by `q` unit prices. */
  lemma RaisedLineTotal(item: CartItem, q: int)
    ensures ChargedLineTotal(item.(quantity := item.quantity + q)) == ChargedLineTotal(item) + q * ChargedUnitPrice(item)
  {
    var x := item.(quantity := item.quantity + q);
    assert ChargedUnitPrice(x) == ChargedUnitPrice(item) by {
      assert VariantPrice(x) == VariantPrice(item);
    }
    var u := ChargedUnitPrice(item);
    assert u * (item.quantity + q) == u * item.quantity + q * u;
  }

  lemma NewLineTotal(p: Product, v: Option<Variant>, q: int, now: string)
    ensures SumOf([NewItem(p, v, q, now)], ChargedLineTotal) == q * ChargedUnitPrice(NewItem(p, v, q, now))
  {
    var it := NewItem(p, v, q, now);
    assert [it][1..] == [];
    assert it.quantity == q;
  }

  /** After adding, the pair is in the cart. */
  lemma IsInCartAfterAdd(items: seq<CartItem>, p: Product, v: Option<Variant>, q: int, now: string)
    ensures IsInCart(AddLocal(items, p, v, q, now), p.id, VariantIdOf(v))
  {
    var r := AddLocal(items, p, v, q, now);
    match LineIndex(items, p.id, VariantIdOf(v))
    case Some(k) =>
      assert r[k].productId == p.id && r[k].variantId == VariantIdOf(v);
    case None =>
      assert r[|items|] == NewItem(p, v, q, now);
  }

  /** The provider's `cart` state; `total` and `itemCount` are derived from `items`. */
  class Cart {
    var items: seq<CartItem>

    constructor()
      ensures items == []
    {
      items := [];
    }

    /** `cart.total`: the lines priced at their listed unit price. */
    function Total(): int
      reads this
    {
      ListedTotal(items)
    }

    function Count(): int
      reads this
    {
      ItemCount(items)
    }

    function Contains(productId: Id, variantId: Option<Id>): bool
      reads this
    {
      IsInCart(items, productId, variantId)
    }

    /** `addToLocalCart`: merge into the pair's line, or append a new line. */
    method AddToLocalCart(p: Product, v: Option<Variant>, q: int, now: string)
      modifies this
      ensures items == AddLocal(old(items), p, v, q, now)
      ensures Count() == old(Count()) + q
      ensures Contains(p.id, VariantIdOf(v))
      ensures KeysUnique(old(items), LineKey) ==> KeysUnique(items, LineKey)
    {
      if KeysUnique(items, LineKey) {
        AddKeepsLinesUnique(items, p, v, q, now);
      }
      IsInCartAfterAdd(items, p, v, q, now);
      var idx := LineIndex(items, p.id, VariantIdOf(v));
      if idx.Some? {
        var k := idx.value;
        AddExistingSpec(items, p, v, q, now, k);
        var newItems := items;
        newItems := newItems[k := newItems[k].(quantity := newItems[k].quantity + q)];
        items := newItems;
      } else {
        AddNewSpec(items, p, v, q, now);
        items := items + [NewItem(p, v, q, now)];
      }
    }

    method RemoveFromLocalCart(itemId: string)
      modifies this
      ensures items == RemoveLocal(old(items), itemId)
      ensures KeysUnique(old(items), LineKey) ==> KeysUnique(items, LineKey)
    {
      RemoveSpec(items, itemId);
      items := RemoveLocal(items, itemId);
    }

    method UpdateLocalQuantity(itemId: string, q: int)
      modifies this
      ensures items == UpdateLocal(old(items), itemId, q)
      ensures KeysUnique(old(items), LineKey) ==> KeysUnique(items, LineKey)
    {
      UpdateLocalKeepsLines(items, itemId, q, Num(0), None);
      items := UpdateLocal(items, itemId, q);
    }

    /** `updateQuantity` for a guest: a quantity of zero or less removes the line. */
    method UpdateQuantity(itemId: string, q: int)
      modifies this
      ensures items == SetQuantity(old(items), itemId, q)
    {
      if q <= 0 {
        RemoveFromLocalCart(itemId);
        return;
      }
      UpdateLocalQuantity(itemId, q);
    }

    method ClearCart()
      modifies this
      ensures items == [] && Total() == 0 && Count() == 0
    {
      items := [];
    }
  }
}
