/**
 * The signed-in cart of `src/services/cart.ts`: the shared `cart_items` table, with rows
 * unique on (customer, product, variant). The signed-in user is a parameter of each call;
 * row ids and `added_at` come from the table's own counter and a clock parameter.
 */
module CartService {
  import opened Common
  import opened Sorting
  import CartContext

  datatype CartRow = CartRow(id: nat, customerId: string, productId: Id, variantId: Option<Id>, quantity: int, addedAt: int)

  /** The upsert conflict key `customer_id,product_id,variant_id`; a null variant matches a null one. */
  function RowKey(r: CartRow): (string, Id, Option<Id>) {
    (r.customerId, r.productId, r.variantId)
  }

  function RowId(r: CartRow): nat {
    r.id
  }

  /** `variantId || null`: a falsy variant id is stored as null. */
  function StoredVariant(v: Option<Id>): (r: Option<Id>)
    ensures r.Some? <==> v.Some? && IdTruthy(v.value)
    ensures r.Some? ==> r == v
  {
    if v.Some? && IdTruthy(v.value) then v else None
  }

  /** The position of the row with the given key, if any. */
  function KeyIndex(rows: seq<CartRow>, key: (string, Id, Option<Id>)): (r: Option<nat>)
    ensures r.Some? ==> r.value < |rows| && RowKey(rows[r.value]) == key
    ensures r.None? ==> forall j :: 0 <= j < |rows| ==> RowKey(rows[j]) != key
  {
    Find(rows, (x: CartRow) => RowKey(x) == key)
  }

  /** One upsert: an existing key has its quantity replaced; a new key gets a row with id `next`. */
  function Upsert(rows: seq<CartRow>, next: nat, user: string, productId: Id, variantId: Option<Id>, q: int, now: int): seq<CartRow> {
    var key := (user, productId, StoredVariant(variantId));
    match KeyIndex(rows, key)
    case Some(k) => rows[k := rows[k].(quantity := q)]
    case None => rows + [CartRow(next, user, productId, StoredVariant(variantId), q, now)]
  }

  /** The table is well formed: keys and ids are unique and every id is below the counter. */
  predicate TableOk(rows: seq<CartRow>, next: nat) {
    KeysUnique(rows, RowKey) && KeysUnique(rows, RowId) && forall i :: 0 <= i < |rows| ==> rows[i].id < next
  }

  /** Some row has key `key` and quantity `q`. */
  predicate HasRow(rows: seq<CartRow>, key: (string, Id, Option<Id>), q: int) {
    exists j :: 0 <= j < |rows| && RowKey(rows[j]) == key && rows[j].quantity == q
  }

  /** Upsert replaces the quantity of an existing key, leaving every other row alone; a new key is appended. */
  lemma UpsertSpec(rows: seq<CartRow>, next: nat, user: string, productId: Id, variantId: Option<Id>, q: int, now: int)
    ensures var key := (user, productId, StoredVariant(variantId));
      var r := Upsert(rows, next, user, productId, variantId, q, now);
      match KeyIndex(rows, key)
      case Some(k) => |r| == |rows| && r[k].quantity == q && r[k].(quantity := rows[k].quantity) == rows[k] &&
                      forall j :: 0 <= j < |rows| && j != k ==> r[j] == rows[j]
      case None => r == rows + [CartRow(next, user, productId, StoredVariant(variantId), q, now)]
    ensures HasRow(Upsert(rows, next, user, productId, variantId, q, now), (user, productId, StoredVariant(variantId)), q)
  {
    var key := (user, productId, StoredVariant(variantId));
    var r := Upsert(rows, next, user, productId, variantId, q, now);
    match KeyIndex(rows, key)
    case Some(k) =>
      assert RowKey(r[k]) == key;
    case None =>
      assert r[|rows|].quantity == q && RowKey(r[|rows|]) == key;
  }

  /** Upsert keeps the table well formed, and uses up the counter value only for a new row. */
  lemma UpsertKeepsTableOk(rows: seq<CartRow>, next: nat, user: string, productId: Id, variantId: Option<Id>, q: int, now: int)
    requires TableOk(rows, next)
    ensures TableOk(Upsert(rows, next, user, productId, variantId, q, now), next + 1)
    ensures |Upsert(rows, next, user, productId, variantId, q, now)| == |rows| ==>
      TableOk(Upsert(rows, next, user, productId, variantId, q, now), next)
  {
    var key := (user, productId, StoredVariant(variantId));
    var r := Upsert(rows, next, user, productId, variantId, q, now);
    match KeyIndex(rows, key)
    case Some(k) =>
      assert forall i :: 0 <= i < |r| ==> RowKey(r[i]) == RowKey(rows[i]) && r[i].id == rows[i].id;
    case None =>
      var x := CartRow(next, user, productId, StoredVariant(variantId), q, now);
      AppendKeysUnique(rows, x, RowKey);
      AppendKeysUnique(rows, x, RowId);
  }

  /** A row whose key differs from the one upserted is still in the table afterwards. */
  lemma UpsertKeepsOtherKeys(rows: seq<CartRow>, next: nat, user: string, productId: Id, variantId: Option<Id>, q: int, now: int, x: CartRow)
    requires x in rows && RowKey(x) != (user, productId, StoredVariant(variantId))
    ensures x in Upsert(rows, next, user, productId, variantId, q, now)
  {
    var r := Upsert(rows, next, user, productId, variantId, q, now);
    var i :| 0 <= i < |rows| && rows[i] == x;
    match KeyIndex(rows, (user, productId, StoredVariant(variantId)))
    case Some(k) =>
      assert r[i] == x;
    case None =>
      assert r[i] == x;
  }

  /** The guest item's key once stored for `user`. */
  function GuestKey(user: string, item: CartContext.CartItem): (string, Id, Option<Id>) {
    (user, item.productId, StoredVariant(item.variantId))
  }

  /** `syncGuestCart`'s one upsert of all guest items, taken item by item; returns the rows and the counter. */
  function UpsertAll(rows: seq<CartRow>, next: nat, user: string, items: seq<CartContext.CartItem>, now: int): (seq<CartRow>, nat)
    decreases |items|
  {
    if |items| == 0 then (rows, next)
    else
      var r := Upsert(rows, next, user, items[0].productId, items[0].variantId, items[0].quantity, now);
      UpsertAll(r, if |r| == |rows| then next else next + 1, user, items[1..], now)
  }

  /** Every guest item ends up as the row of its key with the guest quantity, overwriting the quantity stored before. */
  lemma {:induction false} SyncOverwrites(rows: seq<CartRow>, next: nat, user: string, items: seq<CartContext.CartItem>, now: int, i: nat)
    requires i < |items|
    requires forall a, b :: 0 <= a < b < |items| ==> GuestKey(user, items[a]) != GuestKey(user, items[b])
    ensures HasRow(UpsertAll(rows, next, user, items, now).0, GuestKey(user, items[i]), items[i].quantity)
    decreases |items|
  {
    var it := items[0];
    var r := Upsert(rows, next, user, it.productId, it.variantId, it.quantity, now);
    var n := if |r| == |rows| then next else next + 1;
    var t := items[1..];
    if i == 0 {
      UpsertSpec(rows, next, user, it.productId, it.variantId, it.quantity, now);
      var j :| 0 <= j < |r| && RowKey(r[j]) == GuestKey(user, it) && r[j].quantity == it.quantity;
      forall a | 0 <= a < |t| ensures GuestKey(user, t[a]) != RowKey(r[j]) {
        assert t[a] == items[a + 1];
      }
      SyncKeeps(r, n, user, t, now, r[j]);
      var res := UpsertAll(rows, next, user, items, now).0;
      assert res == UpsertAll(r, n, user, t, now).0;
      var k :| 0 <= k < |res| && res[k] == r[j];
      assert RowKey(res[k]) == GuestKey(user, items[0]) && res[k].quantity == items[0].quantity;
    } else {
      assert t[i - 1] == items[i];
      forall a, b | 0 <= a < b < |t| ensures GuestKey(user, t[a]) != GuestKey(user, t[b]) {
        assert t[a] == items[a + 1] && t[b] == items[b + 1];
      }
      SyncOverwrites(r, n, user, t, now, i - 1);
      assert UpsertAll(rows, next, user, items, now).0 == UpsertAll(r, n, user, t, now).0;
    }
  }

  /** A row whose key no guest item has survives the sync unchanged. */
  lemma {:induction false} SyncKeeps(rows: seq<CartRow>, next: nat, user: string, items: seq<CartContext.CartItem>, now: int, x: CartRow)
    requires x in rows
    requires forall a :: 0 <= a < |items| ==> GuestKey(user, items[a]) != RowKey(x)
    ensures x in UpsertAll(rows, next, user, items, now).0
    decreases |items|
  {
    if |items| > 0 {
      var it := items[0];
      var r := Upsert(rows, next, user, it.productId, it.variantId, it.quantity, now);
      UpsertKeepsOtherKeys(rows, next, user, it.productId, it.variantId, it.quantity, now, x);
      assert forall a :: 0 <= a < |items[1..]| ==> items[1..][a] == items[a + 1];
      SyncKeeps(r, if |r| == |rows| then next else next + 1, user, items[1..], now, x);
    }
  }

  lemma {:induction false} UpsertAllKeepsTableOk(rows: seq<CartRow>, next: nat, user: string, items: seq<CartContext.CartItem>, now: int)
    requires TableOk(rows, next)
    ensures TableOk(UpsertAll(rows, next, user, items, now).0, UpsertAll(rows, next, user, items, now).1)
    decreases |items|
  {
    if |items| > 0 {
      var it := items[0];
      var r := Upsert(rows, next, user, it.productId, it.variantId, it.quantity, now);
      UpsertKeepsTableOk(rows, next, user, it.productId, it.variantId, it.quantity, now);
      UpsertAllKeepsTableOk(r, if |r| == |rows| then next else next + 1, user, items[1..], now);
    }
  }

  /** `order('added_at', { ascending: false })`. */
  function NewestFirst(r: CartRow): seq<int> {
    [-r.addedAt]
  }

  function OwnedBy(rows: seq<CartRow>, user: string): seq<CartRow> {
    Filter(rows, (x: CartRow) => x.customerId == user)
  }

  /** `getCart`: nothing without a user; otherwise exactly the user's rows, newest first. */
  function GetCart(rows: seq<CartRow>, user: Option<string>): seq<CartRow> {
    if user.None? then [] else SortByKey(OwnedBy(rows, user.value), NewestFirst)
  }

  lemma GetCartSpec(rows: seq<CartRow>, user: Option<string>)
    ensures user.None? ==> GetCart(rows, user) == []
    ensures user.Some? ==> forall x :: x in GetCart(rows, user) <==> x in rows && x.customerId == user.value
    ensures user.Some? ==> |GetCart(rows, user)| == |OwnedBy(rows, user.value)|
    ensures forall i, j :: 0 <= i < j < |GetCart(rows, user)| ==> GetCart(rows, user)[i].addedAt >= GetCart(rows, user)[j].addedAt
  {
    if user.Some? {
      var s := GetCart(rows, user);
      SortByKeySpec(OwnedBy(rows, user.value), NewestFirst);
      forall i, j | 0 <= i < j < |s| ensures s[i].addedAt >= s[j].addedAt {
        assert LexLe(NewestFirst(s[i]), NewestFirst(s[j]));
      }
    }
  }

  /** The rows with another id: `delete().eq('id', itemId)`. */
  function WithoutRow(rows: seq<CartRow>, itemId: nat): seq<CartRow> {
    Filter(rows, (x: CartRow) => x.id != itemId)
  }

  /** The quantity `update({ quantity }).eq('id', itemId)` gives a row. */
  function SetRowQuantity(rows: seq<CartRow>, itemId: nat, q: int): (r: seq<CartRow>)
    ensures |r| == |rows|
    ensures forall i :: 0 <= i < |rows| ==> r[i].(quantity := rows[i].quantity) == rows[i]
    ensures forall i :: 0 <= i < |rows| ==> r[i].quantity == if rows[i].id == itemId then q else rows[i].quantity
  {
    if |rows| == 0 then []
    else
      var rest := SetRowQuantity(rows[1..], itemId, q);
      var r := [rows[0].(quantity := if rows[0].id == itemId then q else rows[0].quantity)] + rest;
      assert forall i :: 1 <= i < |rows| ==> r[i] == rest[i - 1] && rows[i] == rows[1..][i - 1];
      r
  }

  const MustLogInToAdd := "Must be logged in to add to cart"
  const MustLogInToSync := "Must be logged in to sync cart"

  /** The `cart_items` table and the counter the database draws new row ids from. */
  class CartTable {
    var rows: seq<CartRow>
    var nextId: nat

    ghost predicate Valid()
      reads this
    {
      TableOk(rows, nextId)
    }

    constructor()
      ensures Valid() && rows == []
    {
      rows := [];
      nextId := 0;
    }

    /** `addToCart`: fails without a user; otherwise one upsert on the conflict key. */
    method AddToCart(user: Option<string>, productId: Id, variantId: Option<Id>, q: int, now: int) returns (r: Outcome)
      requires Valid()
      modifies this
      ensures Valid()
      ensures user.None? ==> r == Failed(MustLogInToAdd) && rows == old(rows)
      ensures user.Some? ==> r == Done && rows == Upsert(old(rows), old(nextId), user.value, productId, variantId, q, now)
    {
      if user.None? {
        return Failed(MustLogInToAdd);
      }
      UpsertKeepsTableOk(rows, nextId, user.value, productId, variantId, q, now);
      var newRows := Upsert(rows, nextId, user.value, productId, variantId, q, now);
      if |newRows| != |rows| {
        nextId := nextId + 1;
      }
      rows := newRows;
      r := Done;
    }

    function GetCartRows(user: Option<string>): seq<CartRow>
      reads this
    {
      GetCart(rows, user)
    }

    /** `removeFromCart`: deletes the row with that id, whoever owns it. */
    method RemoveFromCart(itemId: nat)
      requires Valid()
      modifies this
      ensures Valid()
      ensures rows == WithoutRow(old(rows), itemId) && nextId == old(nextId)
      ensures forall x :: x in rows <==> x in old(rows) && x.id != itemId
    {
      FilterKeysUnique(rows, (x: CartRow) => x.id != itemId, RowKey);
      FilterKeysUnique(rows, (x: CartRow) => x.id != itemId, RowId);
      var kept := WithoutRow(rows, itemId);
      forall i | 0 <= i < |kept| ensures kept[i].id < nextId {
        assert kept[i] in rows;
      }
      rows := kept;
    }

    /** `updateCartQuantity`: a quantity of zero or less is a removal; otherwise only that row's quantity changes. */
    method UpdateCartQuantity(itemId: nat, q: int)
      requires Valid()
      modifies this
      ensures Valid()
      ensures q <= 0 ==> rows == WithoutRow(old(rows), itemId)
      ensures q > 0 ==> rows == SetRowQuantity(old(rows), itemId, q)
      ensures nextId == old(nextId)
    {
      if q <= 0 {
        RemoveFromCart(itemId);
        return;
      }
      var updated := SetRowQuantity(rows, itemId, q);
      assert forall i :: 0 <= i < |updated| ==> RowKey(updated[i]) == RowKey(rows[i]) && updated[i].id == rows[i].id;
      rows := updated;
    }

    /** `clearCart`: without a user nothing happens; otherwise exactly the user's rows go. */
    method ClearCart(user: Option<string>)
      requires Valid()
      modifies this
      ensures Valid()
      ensures user.None? ==> rows == old(rows)
      ensures user.Some? ==> rows == Filter(old(rows), (x: CartRow) => x.customerId != user.value)
      ensures user.Some? ==> GetCart(rows, user) == []
      ensures forall x :: x in old(rows) && (user.None? || x.customerId != user.value) ==> x in rows
    {
      if user.None? {
        return;
      }
      var u := user.value;
      FilterKeysUnique(rows, (x: CartRow) => x.customerId != u, RowKey);
      FilterKeysUnique(rows, (x: CartRow) => x.customerId != u, RowId);
      var kept := Filter(rows, (x: CartRow) => x.customerId != u);
      forall i | 0 <= i < |kept| ensures kept[i].id < nextId {
        assert kept[i] in rows;
      }
      forall i | 0 <= i < |kept| ensures kept[i].customerId != u {
        assert kept[i] in kept;
      }
      FilterNone(kept, (x: CartRow) => x.customerId == u);
      rows := kept;
    }

    /** `syncGuestCart`: fails without a user; otherwise every guest item is upserted on its key. */
    method SyncGuestCart(user: Option<string>, items: seq<CartContext.CartItem>, now: int) returns (r: Outcome)
      requires Valid()
      modifies this
      ensures Valid()
      ensures user.None? ==> r == Failed(MustLogInToSync) && rows == old(rows)
      ensures user.Some? ==> r == Done && (rows, nextId) == UpsertAll(old(rows), old(nextId), user.value, items, now)
    {
      if user.None? {
        return Failed(MustLogInToSync);
      }
      UpsertAllKeepsTableOk(rows, nextId, user.value, items, now);
      var res := UpsertAll(rows, nextId, user.value, items, now);
      rows, nextId := res.0, res.1;
      r := Done;
    }
  }
}
