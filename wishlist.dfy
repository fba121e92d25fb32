/**
 * The guest wishlist of `src/context/WishlistContext.tsx`: a list of products that the
 * provider replaces on every change, compared by id with strict equality.
 */
module Wishlist {
  import opened Common
  import opened Catalog

  function ProductId(p: Product): Id {
    p.id
  }

  /** `list.some(item => item.id === id)`. */
  function HasId(items: seq<Product>, id: Id): (r: bool)
    ensures r <==> exists i :: 0 <= i < |items| && items[i].id == id
  {
    Find(items, (x: Product) => x.id == id).Some?
  }

  /** The list after `addToWishlist(p)`. */
  function WithProduct(items: seq<Product>, p: Product): seq<Product> {
    if HasId(items, p.id) then items else items + [p]
  }

  /** The list after `removeFromWishlist(id)`. */
  function WithoutId(items: seq<Product>, id: Id): seq<Product> {
    Filter(items, (x: Product) => x.id != id)
  }

  /** Adding an id that is present changes nothing; a new id is appended at the end; either way the id is then present. */
  lemma AddSpec(items: seq<Product>, p: Product)
    ensures HasId(items, p.id) ==> WithProduct(items, p) == items
    ensures !HasId(items, p.id) ==> WithProduct(items, p) == items + [p] && |WithProduct(items, p)| == |items| + 1
    ensures HasId(WithProduct(items, p), p.id)
  {
    if !HasId(items, p.id) {
      assert (items + [p])[|items|] == p;
    }
  }

  /** Removal keeps exactly the entries with another id, in their order, and leaves the id absent. */
  lemma RemoveSpec(items: seq<Product>, id: Id)
    ensures forall x :: x in WithoutId(items, id) <==> x in items && x.id != id
    ensures !HasId(WithoutId(items, id), id)
    ensures !HasId(items, id) ==> WithoutId(items, id) == items
  {
    var r := WithoutId(items, id);
    forall i | 0 <= i < |r| ensures r[i].id != id {
      assert r[i] in r;
    }
    if !HasId(items, id) {
      FilterAll(items, (x: Product) => x.id != id);
    }
  }

  /** Adding and removing never create a repeated id. */
  lemma OperationsKeepIdsUnique(items: seq<Product>, p: Product, id: Id)
    requires KeysUnique(items, ProductId)
    ensures KeysUnique(WithProduct(items, p), ProductId)
    ensures KeysUnique(WithoutId(items, id), ProductId)
  {
    if !HasId(items, p.id) {
      AppendKeysUnique(items, p, ProductId);
    }
    FilterKeysUnique(items, (x: Product) => x.id != id, ProductId);
  }

  /** Removing an id just added leaves what removing it from the original list leaves. */
  lemma RemoveUndoesAdd(items: seq<Product>, p: Product)
    ensures WithoutId(WithProduct(items, p), p.id) == WithoutId(items, p.id)
  {
    if !HasId(items, p.id) {
      FilterAppend(items, [p], (x: Product) => x.id != p.id);
      assert WithoutId([p], p.id) == [];
    }
  }

  /** The provider's `wishlist` state. */
  class WishlistContext {
    var wishlist: seq<Product>

    constructor()
      ensures wishlist == []
    {
      wishlist := [];
    }

    function IsInWishlist(id: Id): bool
      reads this
    {
      HasId(wishlist, id)
    }

    /** `wishlistCount`. */
    function WishlistCount(): nat
      reads this
    {
      |wishlist|
    }

    method AddToWishlist(p: Product)
      modifies this
      ensures wishlist == WithProduct(old(wishlist), p)
      ensures IsInWishlist(p.id)
      ensures WishlistCount() == old(WishlistCount()) + (if old(IsInWishlist(p.id)) then 0 else 1)
    {
      AddSpec(wishlist, p);
      if !HasId(wishlist, p.id) {
        wishlist := wishlist + [p];
      }
    }

    method RemoveFromWishlist(id: Id)
      modifies this
      ensures wishlist == WithoutId(old(wishlist), id)
      ensures !IsInWishlist(id)
    {
      RemoveSpec(wishlist, id);
      wishlist := Filter(wishlist, (x: Product) => x.id != id);
    }

    method ClearWishlist()
      modifies this
      ensures wishlist == [] && WishlistCount() == 0
      ensures forall id :: !IsInWishlist(id)
    {
      wishlist := [];
    }
  }
}
