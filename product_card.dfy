/**
 * The product tile of `src/components/products/ProductCard.tsx`: which image and price it
 * shows, whether it offers a direct add button, the low-stock badge and the heart button.
 */
module ProductCard {
  import opened Common
  import opened Text
  import opened Catalog
  import opened Wishlist
  import CartContext

  const Placeholder := "/placeholder-product.jpg"

  /** `image_url || gallery_urls?.[0] || '/placeholder-product.jpg'`. */
  function MainImage(p: Product): (r: string)
    ensures r != ""
    ensures StrTruthy(p.imageUrl) ==> r == p.imageUrl.value
    ensures !StrTruthy(p.imageUrl) && |p.galleryUrls| > 0 && p.galleryUrls[0] != "" ==> r == p.galleryUrls[0]
    ensures !StrTruthy(p.imageUrl) && (|p.galleryUrls| == 0 || p.galleryUrls[0] == "") ==> r == Placeholder
  {
    if StrTruthy(p.imageUrl) then p.imageUrl.value
    else if |p.galleryUrls| > 0 && p.galleryUrls[0] != "" then p.galleryUrls[0]
    else Placeholder
  }

  /** `price || regular_price || 0`. */
  function ProductPrice(p: Product): (r: int)
    ensures Truthy(p.price) ==> r == p.price.v
    ensures !Truthy(p.price) && Truthy(p.regularPrice) ==> r == p.regularPrice.v
    ensures !Truthy(p.price) && !Truthy(p.regularPrice) ==> r == 0
  {
    var xs := [p.price, p.regularPrice];
    assert xs[0] == p.price && xs[1] == p.regularPrice;
    FirstTruthy(xs, 0)
  }

  /** A variant's `price || regular_price || 0`. */
  function VariantPrice(v: Variant): (r: int)
    ensures Truthy(v.price) ==> r == v.price.v
    ensures !Truthy(v.price) && Truthy(v.regularPrice) ==> r == v.regularPrice.v
    ensures !Truthy(v.price) && !Truthy(v.regularPrice) ==> r == 0
  {
    var xs := [v.price, v.regularPrice];
    assert xs[0] == v.price && xs[1] == v.regularPrice;
    FirstTruthy(xs, 0)
  }

  /** The product must be chosen on its page: it is of type 'variable', has variants, or has both variant bounds (`!== undefined`, so `null` counts as present). */
  predicate IsVariable(p: Product) {
    p.productType == "variable" || |p.variants| > 0 || (p.variantMinPrice != Undef && p.variantMaxPrice != Undef)
  }

  /** `Math.min(...xs)` on a non-empty list. */
  function MinOf(xs: seq<int>): (r: int)
    requires |xs| > 0
    ensures r in xs
    ensures forall i :: 0 <= i < |xs| ==> r <= xs[i]
  {
    if |xs| == 1 then xs[0]
    else
      var m := MinOf(xs[1..]);
      assert forall i :: 1 <= i < |xs| ==> xs[1..][i - 1] == xs[i];
      if xs[0] <= m then xs[0] else m
  }

  function VariantPrices(vs: seq<Variant>): (r: seq<int>)
    ensures |r| == |vs| && forall i :: 0 <= i < |vs| ==> r[i] == VariantPrice(vs[i])
  {
    if |vs| == 0 then [] else [VariantPrice(vs[0])] + VariantPrices(vs[1..])
  }

  /** `variant_min_price` if truthy, else the cheapest variant, else the product price. */
  function MinPrice(p: Product): (r: int)
    ensures Truthy(p.variantMinPrice) ==> r == p.variantMinPrice.v
    ensures !Truthy(p.variantMinPrice) && |p.variants| > 0 ==>
      (exists i :: 0 <= i < |p.variants| && r == VariantPrice(p.variants[i])) &&
      (forall i :: 0 <= i < |p.variants| ==> r <= VariantPrice(p.variants[i]))
    ensures !Truthy(p.variantMinPrice) && |p.variants| == 0 ==> r == ProductPrice(p)
  {
    if Truthy(p.variantMinPrice) then p.variantMinPrice.v
    else if |p.variants| > 0 then
      var ps := VariantPrices(p.variants);
      var m := MinOf(ps);
      assert exists i :: 0 <= i < |ps| && ps[i] == m;
      m
    else ProductPrice(p)
  }

  /** What the price line shows. */
  datatype PriceDisplay = PriceRange(low: JsNum, high: JsNum) | From(amount: int) | Plain(amount: int)

  /** A range when both bounds are defined and differ, else "from the minimum" when there are variants, else the product price. */
  function DisplayedPrice(p: Product): (r: PriceDisplay)
    ensures r.PriceRange? <==> p.variantMinPrice != Undef && p.variantMaxPrice != Undef && p.variantMinPrice != p.variantMaxPrice
    ensures r.PriceRange? ==> r == PriceRange(p.variantMinPrice, p.variantMaxPrice)
    ensures r.From? <==> !r.PriceRange? && |p.variants| > 0
    ensures r.From? ==> r.amount == MinPrice(p)
    ensures r.Plain? ==> r.amount == ProductPrice(p)
  {
    if p.variantMinPrice != Undef && p.variantMaxPrice != Undef && p.variantMinPrice != p.variantMaxPrice then
      PriceRange(p.variantMinPrice, p.variantMaxPrice)
    else if |p.variants| > 0 then From(MinPrice(p))
    else Plain(ProductPrice(p))
  }

  /** "Only n left" shows exactly for a numeric stock strictly between 0 and 10. */
  predicate LowStockBadge(p: Product) {
    p.stockQuantity.Val? && p.stockQuantity.v < 10 && p.stockQuantity.v > 0
  }

  /** The tile's cart button. */
  datatype CardButton = SelectOptions | AddButton(disabled: bool)

  /** Variable products link to their page; others get an add button disabled exactly at stock 0. */
  function Button(p: Product): (r: CardButton)
    ensures r.SelectOptions? <==> IsVariable(p)
    ensures r.AddButton? ==> (r.disabled <==> p.stockQuantity == Val(0))
  {
    if IsVariable(p) then SelectOptions else AddButton(p.stockQuantity == Val(0))
  }

  /** `handleAddToCart`: one unit, no variant, on the guest cart. */
  method HandleAddToCart(cart: CartContext.Cart, p: Product, now: string)
    modifies cart
    ensures cart.items == CartContext.AddLocal(old(cart.items), p, None, 1, now)
    ensures cart.Count() == old(cart.Count()) + 1
  {
    cart.AddToLocalCart(p, None, 1, now);
  }

  /** The heart as lines 97-102 write it: the wishlist is asked about `String(product.id)`. */
  function ToggleAsWritten(w: seq<Product>, p: Product): seq<Product> {
    var key := Str(IdText(p.id));
    if HasId(w, key) then WithoutId(w, key) else WithProduct(w, p)
  }

  /** The heart as intended: the wishlist is asked about the product's own id. */
  function Toggle(w: seq<Product>, p: Product): seq<Product> {
    if HasId(w, p.id) then WithoutId(w, p.id) else WithProduct(w, p)
  }

  /** With numeric ids, the written heart never removes anything: clicking a filled heart keeps the product. */
  lemma AsWrittenNeverRemoves(w: seq<Product>, p: Product)
    requires p.id.Num?
    requires forall i :: 0 <= i < |w| ==> w[i].id.Num?
    ensures ToggleAsWritten(w, p) == WithProduct(w, p)
    ensures HasId(w, p.id) ==> ToggleAsWritten(w, p) == w
    ensures HasId(ToggleAsWritten(w, p), p.id)
  {
    AddSpec(w, p);
  }

  /** Product 5 alone in the wishlist stays there after its heart is clicked. */
  lemma AsWrittenCounterexample(p: Product)
    requires p.id == Num(5)
    ensures ToggleAsWritten([p], p) == [p]
  {
    AsWrittenNeverRemoves([p], p);
    assert [p][0].id == p.id;
  }

  /** The intended heart flips membership, and two clicks from "absent" give the original list back. */
  lemma ToggleFlips(w: seq<Product>, p: Product)
    ensures HasId(Toggle(w, p), p.id) <==> !HasId(w, p.id)
    ensures !HasId(w, p.id) ==> Toggle(Toggle(w, p), p) == w
  {
    AddSpec(w, p);
    RemoveSpec(w, p.id);
    if !HasId(w, p.id) {
      RemoveSpec(w + [p], p.id);
      RemoveUndoesAdd(w, p);
    }
  }

  /** The heart's click handler, with the corrected lookup. */
  method HandleHeartClick(wl: WishlistContext, p: Product)
    modifies wl
    ensures wl.wishlist == Toggle(old(wl.wishlist), p)
    ensures wl.IsInWishlist(p.id) <==> !old(wl.IsInWishlist(p.id))
  {
    ToggleFlips(wl.wishlist, p);
    if wl.IsInWishlist(p.id) {
      wl.RemoveFromWishlist(p.id);
    } else {
      wl.AddToWishlist(p);
    }
  }
}
