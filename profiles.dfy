/**
 * The address book of `src/services/profiles.ts` over the `customer_addresses` table:
 * each operation is a sequence of table updates filtered by the signed-in customer,
 * with "clear every default, then set one" as the rule for the default flag.
 * Row ids come from the table's counter, timestamps from a clock parameter. The profile
 * reads and updates over `customer_profiles` are at the end.
 */
module Profiles {
  import opened Common
  import opened Sorting
  import Catalog

  /** The address fields a customer fills in. */
  datatype AddressDetails = AddressDetails(
    addressLabel: Option<string>, fullName: string, phone: string, streetAddress: string, barangay: Option<string>,
    city: string, province: string, region: Option<string>, postalCode: Option<string>)

  datatype AddressRow = AddressRow(id: nat, customerId: string, details: AddressDetails, isDefault: bool, createdAt: int, updatedAt: int)

  /** A `Partial<CustomerAddress>` update: the fields given, the others left alone. */
  datatype AddressUpdate = AddressUpdate(details: Option<AddressDetails>, isDefault: Option<bool>)

  const MustLogIn := "Must be logged in"

  function AddressId(r: AddressRow): nat {
    r.id
  }

  /** Two rows of the same customer are not both defaults. */
  predicate NotTwoDefaults(a: AddressRow, b: AddressRow) {
    a.customerId == b.customerId ==> !(a.isDefault && b.isDefault)
  }

  /** No customer has two default addresses. */
  predicate OneDefaultEach(rows: seq<AddressRow>) {
    Pairwise(rows, NotTwoDefaults)
  }

  /** Row ids are distinct and below the counter. */
  predicate IdsOk(rows: seq<AddressRow>, next: nat) {
    KeysUnique(rows, AddressId) && forall i :: 0 <= i < |rows| ==> rows[i].id < next
  }

  predicate TableOk(rows: seq<AddressRow>, next: nat) {
    IdsOk(rows, next) && OneDefaultEach(rows)
  }

  /**
   * The first "unset other defaults" update of `createAddress`, `updateAddress` and
   * `setDefaultAddress`. Its `error` is never read, so when it fails (`clearError`) the table is
   * left as it was and the operation goes on.
   */
  function ClearStep(rows: seq<AddressRow>, user: string, keep: Option<nat>, clearError: Option<string>): seq<AddressRow> {
    if clearError.Some? then rows else ClearDefaults(rows, user, keep)
  }

  /** `update({ is_default: false }).eq('customer_id', user)`, with `.neq('id', keep)` when `keep` is given. */
  function ClearDefaults(rows: seq<AddressRow>, user: string, keep: Option<nat>): (r: seq<AddressRow>)
    ensures |r| == |rows|
    ensures forall i :: 0 <= i < |rows| ==> r[i] == rows[i].(isDefault := ClearedFlag(rows[i], user, keep))
  {
    seq(|rows|, i requires 0 <= i < |rows| => rows[i].(isDefault := ClearedFlag(rows[i], user, keep)))
  }

  function ClearedFlag(row: AddressRow, user: string, keep: Option<nat>): bool {
    if row.customerId == user && (keep.None? || row.id != keep.value) then false else row.isDefault
  }

  /** A row of `user` with id `id`: the rows `.eq('id', id).eq('customer_id', user)` selects. */
  predicate Owned(row: AddressRow, user: string, id: nat) {
    row.id == id && row.customerId == user
  }

  function Updated(row: AddressRow, upd: AddressUpdate, now: int): AddressRow {
    row.(details := if upd.details.Some? then upd.details.value else row.details,
         isDefault := if upd.isDefault.Some? then upd.isDefault.value else row.isDefault,
         updatedAt := now)
  }

  /** The second `update` of `updateAddress`: the changes applied to the user's row with that id. */
  function ApplyUpdate(rows: seq<AddressRow>, user: string, id: nat, upd: AddressUpdate, now: int): (r: seq<AddressRow>)
    ensures |r| == |rows|
    ensures forall i :: 0 <= i < |rows| ==> r[i] == if Owned(rows[i], user, id) then Updated(rows[i], upd, now) else rows[i]
  {
    seq(|rows|, i requires 0 <= i < |rows| => if Owned(rows[i], user, id) then Updated(rows[i], upd, now) else rows[i])
  }

  /** `update({ is_default: true }).eq('id', id).eq('customer_id', user)`. */
  function MarkDefault(rows: seq<AddressRow>, user: string, id: nat): (r: seq<AddressRow>)
    ensures |r| == |rows|
    ensures forall i :: 0 <= i < |rows| ==> r[i] == if Owned(rows[i], user, id) then rows[i].(isDefault := true) else rows[i]
  {
    seq(|rows|, i requires 0 <= i < |rows| => if Owned(rows[i], user, id) then rows[i].(isDefault := true) else rows[i])
  }

  /** `delete().eq('id', id).eq('customer_id', user)`. */
  function DeleteOwned(rows: seq<AddressRow>, user: string, id: nat): seq<AddressRow> {
    Filter(rows, (r: AddressRow) => !Owned(r, user, id))
  }

  /** The rows of `updateAddress`: clear the user's other defaults when the update sets the flag, then update. */
  function UpdateRows(rows: seq<AddressRow>, user: string, id: nat, upd: AddressUpdate, now: int): seq<AddressRow> {
    var cleared := if upd.isDefault == Some(true) then ClearDefaults(rows, user, Some(id)) else rows;
    ApplyUpdate(cleared, user, id, upd, now)
  }

  /** The rows of `setDefaultAddress`: clear all of the user's defaults, then flag the row. */
  function SetDefaultRows(rows: seq<AddressRow>, user: string, id: nat): seq<AddressRow> {
    MarkDefault(ClearDefaults(rows, user, None), user, id)
  }

  /** `order('is_default', { ascending: false }).order('created_at', { ascending: false })`. */
  function AddressOrder(r: AddressRow): seq<int> {
    [if r.isDefault then 0 else 1, -r.createdAt]
  }

  /** `getAddresses`: nothing without a user; otherwise the user's rows, defaults first, newest first. */
  function Addresses(rows: seq<AddressRow>, user: Option<string>): seq<AddressRow> {
    if user.None? then [] else SortByKey(Filter(rows, (r: AddressRow) => r.customerId == user.value), AddressOrder)
  }

  lemma OrderKey(a: AddressRow, b: AddressRow)
    requires LexLe(AddressOrder(a), AddressOrder(b))
    ensures b.isDefault ==> a.isDefault
    ensures a.isDefault == b.isDefault ==> a.createdAt >= b.createdAt
  {
    assert AddressOrder(a)[1..] == [-a.createdAt];
    assert AddressOrder(b)[1..] == [-b.createdAt];
  }

  /** The list holds exactly the user's rows, each default before every non-default, and newest first among equals. */
  lemma AddressesSpec(rows: seq<AddressRow>, user: Option<string>)
    ensures user.None? ==> Addresses(rows, user) == []
    ensures user.Some? ==> forall x :: x in Addresses(rows, user) <==> x in rows && x.customerId == user.value
    ensures var s := Addresses(rows, user);
      forall i, j :: 0 <= i < j < |s| ==>
        (s[j].isDefault ==> s[i].isDefault) && (s[i].isDefault == s[j].isDefault ==> s[i].createdAt >= s[j].createdAt)
  {
    if user.Some? {
      var s := Addresses(rows, user);
      SortByKeySpec(Filter(rows, (r: AddressRow) => r.customerId == user.value), AddressOrder);
      forall i, j | 0 <= i < j < |s|
        ensures (s[j].isDefault ==> s[i].isDefault) && (s[i].isDefault == s[j].isDefault ==> s[i].createdAt >= s[j].createdAt)
      {
        OrderKey(s[i], s[j]);
      }
    }
  }

  /** `getDefaultAddress`: the user's single default row; failing that, the first of `getAddresses`; else nothing. */
  function DefaultAddress(rows: seq<AddressRow>, user: Option<string>): (r: Option<AddressRow>)
    ensures user.None? ==> r.None?
    ensures r.Some? ==> r.value in rows && r.value.customerId == user.value
  {
    if user.None? then None
    else match Single(rows, (r: AddressRow) => r.customerId == user.value && r.isDefault)
      case Some(a) => Some(a)
      case None =>
        var list := Addresses(rows, user);
        AddressesSpec(rows, user);
        if |list| > 0 then assert list[0] in list; Some(list[0]) else None
  }

  /** A flagged default is the one returned; without one, the first address in list order is returned. */
  lemma DefaultAddressSpec(rows: seq<AddressRow>, user: string)
    requires OneDefaultEach(rows)
    ensures forall i :: 0 <= i < |rows| && rows[i].customerId == user && rows[i].isDefault ==> DefaultAddress(rows, Some(user)) == Some(rows[i])
    ensures (forall i :: 0 <= i < |rows| && rows[i].customerId == user ==> !rows[i].isDefault) ==>
      DefaultAddress(rows, Some(user)) == (if |Addresses(rows, Some(user))| > 0 then Some(Addresses(rows, Some(user))[0]) else None)
  {
    var p := (r: AddressRow) => r.customerId == user && r.isDefault;
    forall i | 0 <= i < |rows| && rows[i].customerId == user && rows[i].isDefault
      ensures DefaultAddress(rows, Some(user)) == Some(rows[i])
    {
      forall j | 0 <= j < |rows| && j != i ensures !p(rows[j]) {
        if j < i { assert NotTwoDefaults(rows[j], rows[i]); } else { assert NotTwoDefaults(rows[i], rows[j]); }
      }
      FilterOnly(rows, p, i);
    }
    if forall i :: 0 <= i < |rows| && rows[i].customerId == user ==> !rows[i].isDefault {
      FilterNone(rows, p);
    }
  }

  /** After clearing, the user has no default apart from `keep`, other customers' rows are untouched, and no customer gains a second default. */
  lemma ClearDefaultsSpec(rows: seq<AddressRow>, user: string, keep: Option<nat>)
    requires OneDefaultEach(rows)
    ensures OneDefaultEach(ClearDefaults(rows, user, keep))
    ensures forall i :: 0 <= i < |rows| && rows[i].customerId == user && ClearDefaults(rows, user, keep)[i].isDefault ==>
      keep.Some? && rows[i].id == keep.value
    ensures forall i :: 0 <= i < |rows| && rows[i].customerId != user ==> ClearDefaults(rows, user, keep)[i] == rows[i]
  {
    var c := ClearDefaults(rows, user, keep);
    forall i, j | 0 <= i < j < |c| ensures NotTwoDefaults(c[i], c[j]) {
      assert NotTwoDefaults(rows[i], rows[j]);
    }
  }

  /** Marking one row as default, when the customer has no other default, leaves at most one default each. */
  lemma MarkDefaultKeepsOne(rows: seq<AddressRow>, user: string, id: nat)
    requires OneDefaultEach(rows) && KeysUnique(rows, AddressId)
    requires forall i :: 0 <= i < |rows| && rows[i].customerId == user && rows[i].isDefault ==> rows[i].id == id
    ensures OneDefaultEach(MarkDefault(rows, user, id))
    ensures forall i :: 0 <= i < |rows| && rows[i].customerId == user ==> (MarkDefault(rows, user, id)[i].isDefault <==> rows[i].id == id)
  {
    var r := MarkDefault(rows, user, id);
    forall i, j | 0 <= i < j < |r| ensures NotTwoDefaults(r[i], r[j]) {
      assert NotTwoDefaults(rows[i], rows[j]);
      assert rows[i].id != rows[j].id;
    }
  }

  /**
   * After `setDefaultAddress(id)` the user's one default is the row `id` when the user owns
   * it, and the user has none otherwise; other customers' rows are untouched.
   */
  lemma SetDefaultSpec(rows: seq<AddressRow>, user: string, id: nat)
    requires OneDefaultEach(rows) && KeysUnique(rows, AddressId)
    ensures |SetDefaultRows(rows, user, id)| == |rows|
    ensures forall i :: 0 <= i < |rows| && rows[i].customerId == user ==> (SetDefaultRows(rows, user, id)[i].isDefault <==> rows[i].id == id)
    ensures forall i :: 0 <= i < |rows| && rows[i].customerId != user ==> SetDefaultRows(rows, user, id)[i] == rows[i]
    ensures OneDefaultEach(SetDefaultRows(rows, user, id))
  {
    ClearDefaultsSpec(rows, user, None);
    var c := ClearDefaults(rows, user, None);
    assert forall i :: 0 <= i < |rows| ==> c[i].id == rows[i].id && c[i].customerId == rows[i].customerId;
    assert KeysUnique(c, AddressId);
    MarkDefaultKeepsOne(c, user, id);
  }

  /** The rows of `createAddress`: a default clears the user's defaults first; the new row is appended with the user as owner. */
  function CreateRows(rows: seq<AddressRow>, next: nat, user: string, details: AddressDetails, isDefault: bool, now: int): seq<AddressRow> {
    var base := if isDefault then ClearDefaults(rows, user, None) else rows;
    base + [AddressRow(next, user, details, isDefault, now, now)]
  }

  /** A new default is the user's only default; a new non-default leaves every flag alone; the table stays well formed. */
  lemma CreateSpec(rows: seq<AddressRow>, next: nat, user: string, details: AddressDetails, isDefault: bool, now: int)
    requires TableOk(rows, next)
    ensures var r := CreateRows(rows, next, user, details, isDefault, now);
      |r| == |rows| + 1 && r[|rows|].customerId == user && r[|rows|].isDefault == isDefault &&
      TableOk(r, next + 1)
    ensures var r := CreateRows(rows, next, user, details, isDefault, now);
      isDefault ==> forall i :: 0 <= i < |r| && r[i].customerId == user && r[i].isDefault ==> i == |rows|
    ensures !isDefault ==> CreateRows(rows, next, user, details, isDefault, now)[..|rows|] == rows
  {
    var base := if isDefault then ClearDefaults(rows, user, None) else rows;
    var x := AddressRow(next, user, details, isDefault, now, now);
    var r := base + [x];
    assert r[..|rows|] == base;
    if isDefault {
      ClearDefaultsSpec(rows, user, None);
    }
    assert forall i :: 0 <= i < |rows| ==> base[i].id == rows[i].id && base[i].customerId == rows[i].customerId;
    AppendKeysUnique(base, x, AddressId);
    forall i, j | 0 <= i < j < |r| ensures NotTwoDefaults(r[i], r[j]) {
      if j < |rows| {
        assert r[i] == base[i] && r[j] == base[j];
      } else {
        assert r[i] == base[i] && r[j] == x;
      }
    }
  }

  /** With `is_default` set, the updated row is the user's only default (none if the user does not own it); without it no flag is raised. */
  lemma UpdateSpec(rows: seq<AddressRow>, user: string, id: nat, upd: AddressUpdate, now: int)
    requires KeysUnique(rows, AddressId)
    ensures |UpdateRows(rows, user, id, upd, now)| == |rows|
    ensures forall i :: 0 <= i < |rows| && rows[i].customerId != user ==> UpdateRows(rows, user, id, upd, now)[i] == rows[i]
    ensures forall i :: 0 <= i < |rows| && Owned(rows[i], user, id) ==> UpdateRows(rows, user, id, upd, now)[i].updatedAt == now
    ensures upd.isDefault == Some(true) ==> forall i :: 0 <= i < |rows| && rows[i].customerId == user ==>
      (UpdateRows(rows, user, id, upd, now)[i].isDefault <==> rows[i].id == id)
    ensures upd.isDefault != Some(true) ==> forall i :: 0 <= i < |rows| && UpdateRows(rows, user, id, upd, now)[i].isDefault ==> rows[i].isDefault
    ensures OneDefaultEach(rows) ==> OneDefaultEach(UpdateRows(rows, user, id, upd, now))
  {
    var r := UpdateRows(rows, user, id, upd, now);
    if upd.isDefault == Some(true) {
      if OneDefaultEach(rows) {
        ClearDefaultsSpec(rows, user, Some(id));
      }
      var c := ClearDefaults(rows, user, Some(id));
      assert forall i :: 0 <= i < |rows| ==> c[i].id == rows[i].id && c[i].customerId == rows[i].customerId;
      if OneDefaultEach(rows) {
        forall i, j | 0 <= i < j < |r| ensures NotTwoDefaults(r[i], r[j]) {
          assert NotTwoDefaults(c[i], c[j]);
          assert rows[i].id != rows[j].id;
        }
      }
    } else if OneDefaultEach(rows) {
      forall i, j | 0 <= i < j < |r| ensures NotTwoDefaults(r[i], r[j]) {
        assert NotTwoDefaults(rows[i], rows[j]);
      }
    }
  }

  /**
   * When the ignored clearing update of `createAddress` fails, a new default row sits beside the
   * user's existing default: the customer has two.
   */
  lemma FailedClearCreatesSecondDefault(rows: seq<AddressRow>, next: nat, user: string, details: AddressDetails, now: int, i: nat)
    requires i < |rows| && rows[i].customerId == user && rows[i].isDefault
    ensures !OneDefaultEach(rows + [AddressRow(next, user, details, true, now, now)])
  {
    var r := rows + [AddressRow(next, user, details, true, now, now)];
    assert r[i] == rows[i] && !NotTwoDefaults(r[i], r[|rows|]);
  }

  /**
   * When the ignored clearing update of `updateAddress` fails, raising the flag of row `id` leaves
   * the user's other default set as well.
   */
  lemma FailedClearUpdatesSecondDefault(rows: seq<AddressRow>, user: string, id: nat, upd: AddressUpdate, now: int, i: nat, j: nat)
    requires upd.isDefault == Some(true)
    requires i < |rows| && j < |rows| && rows[i].customerId == user && rows[i].isDefault && rows[i].id != id && Owned(rows[j], user, id)
    ensures !OneDefaultEach(ApplyUpdate(rows, user, id, upd, now))
  {
    var r := ApplyUpdate(rows, user, id, upd, now);
    assert r[i] == rows[i] && r[j].isDefault;
    if i < j { assert !NotTwoDefaults(r[i], r[j]); } else { assert !NotTwoDefaults(r[j], r[i]); }
  }

  /**
   * When the ignored first update of `setDefaultAddress` fails, marking row `id` leaves the
   * user's old default set as well.
   */
  lemma FailedClearMarksSecondDefault(rows: seq<AddressRow>, user: string, id: nat, i: nat, j: nat)
    requires i < |rows| && j < |rows| && rows[i].customerId == user && rows[i].isDefault && rows[i].id != id && Owned(rows[j], user, id)
    ensures !OneDefaultEach(MarkDefault(rows, user, id))
  {
    var r := MarkDefault(rows, user, id);
    assert r[i] == rows[i] && r[j].isDefault;
    if i < j { assert !NotTwoDefaults(r[i], r[j]); } else { assert !NotTwoDefaults(r[j], r[i]); }
  }

  /** The `customer_addresses` table and the counter new ids come from. */
  class AddressBook {
    var rows: seq<AddressRow>
    var nextId: nat

    ghost predicate Valid()
      reads this
    {
      IdsOk(rows, nextId)
    }

    constructor()
      ensures Valid() && rows == []
    {
      rows := [];
      nextId := 0;
    }

    /**
     * `createAddress`: refused without a user. A default first clears the user's flags
     * (`clearError`: that update failed, which the source does not notice); a failed insert
     * (`insertError`) leaves the clearing in place and adds no row. One default per customer
     * survives whenever the clearing succeeded or was not needed.
     */
    method CreateAddress(user: Option<string>, details: AddressDetails, isDefault: bool, now: int,
                         clearError: Option<string>, insertError: Option<string>) returns (r: Result<AddressRow>)
      requires Valid()
      modifies this
      ensures Valid()
      ensures user.None? ==> r == Err(MustLogIn) && rows == old(rows) && nextId == old(nextId)
      ensures user.Some? ==>
        var base := if isDefault then ClearStep(old(rows), user.value, None, clearError) else old(rows);
        (insertError.Some? ==> r == Err(insertError.value) && rows == base) &&
        (insertError.None? ==> rows == base + [AddressRow(old(nextId), user.value, details, isDefault, now, now)] && r == Ok(rows[|rows| - 1]))
      ensures user.Some? && insertError.None? && (clearError.None? || !isDefault) ==>
        rows == CreateRows(old(rows), old(nextId), user.value, details, isDefault, now)
      ensures (clearError.None? || !isDefault) && OneDefaultEach(old(rows)) ==> OneDefaultEach(rows)
    {
      if user.None? {
        return Err(MustLogIn);
      }
      if OneDefaultEach(rows) {
        CreateSpec(rows, nextId, user.value, details, isDefault, now);
        if isDefault {
          ClearDefaultsSpec(rows, user.value, None);
        }
      }
      if isDefault {
        var cleared := ClearStep(rows, user.value, None, clearError);
        assert forall i :: 0 <= i < |rows| ==> cleared[i].id == rows[i].id;
        rows := cleared;
      }
      if insertError.Some? {
        return Err(insertError.value);
      }
      var row := AddressRow(nextId, user.value, details, isDefault, now, now);
      AppendKeysUnique(rows, row, AddressId);
      rows := rows + [row];
      nextId := nextId + 1;
      r := Ok(row);
    }

    /**
     * `updateAddress`: refused without a user. Setting the flag first clears the user's other
     * defaults (`clearError`: that update failed unnoticed); a failed update (`updateError`)
     * keeps the clearing.
     */
    method UpdateAddress(user: Option<string>, id: nat, upd: AddressUpdate, now: int,
                         clearError: Option<string>, updateError: Option<string>) returns (r: Outcome)
      requires Valid()
      modifies this
      ensures Valid() && nextId == old(nextId)
      ensures user.None? ==> r == Failed(MustLogIn) && rows == old(rows)
      ensures user.Some? ==>
        var base := if upd.isDefault == Some(true) then ClearStep(old(rows), user.value, Some(id), clearError) else old(rows);
        (updateError.Some? ==> r == Failed(updateError.value) && rows == base) &&
        (updateError.None? ==> r == Done && rows == ApplyUpdate(base, user.value, id, upd, now))
      ensures user.Some? && updateError.None? && (clearError.None? || upd.isDefault != Some(true)) ==>
        rows == UpdateRows(old(rows), user.value, id, upd, now)
      ensures (clearError.None? || upd.isDefault != Some(true)) && OneDefaultEach(old(rows)) ==> OneDefaultEach(rows)
    {
      if user.None? {
        return Failed(MustLogIn);
      }
      UpdateSpec(rows, user.value, id, upd, now);
      if upd.isDefault == Some(true) {
        if OneDefaultEach(rows) {
          ClearDefaultsSpec(rows, user.value, Some(id));
        }
        var cleared := ClearStep(rows, user.value, Some(id), clearError);
        assert forall i :: 0 <= i < |rows| ==> cleared[i].id == rows[i].id;
        rows := cleared;
      }
      if updateError.Some? {
        return Failed(updateError.value);
      }
      var updated := ApplyUpdate(rows, user.value, id, upd, now);
      assert forall i :: 0 <= i < |rows| ==> updated[i].id == rows[i].id;
      rows := updated;
      r := Done;
    }

    /** `deleteAddress`: refused without a user; only the user's own row with that id goes. */
    method DeleteAddress(user: Option<string>, id: nat, deleteError: Option<string>) returns (r: Outcome)
      requires Valid()
      modifies this
      ensures Valid() && nextId == old(nextId)
      ensures OneDefaultEach(old(rows)) ==> OneDefaultEach(rows)
      ensures user.None? ==> r == Failed(MustLogIn) && rows == old(rows)
      ensures user.Some? && deleteError.Some? ==> r == Failed(deleteError.value) && rows == old(rows)
      ensures user.Some? && deleteError.None? ==> r == Done && rows == DeleteOwned(old(rows), user.value, id)
      ensures user.Some? && deleteError.None? ==> forall x :: x in rows <==> x in old(rows) && !Owned(x, user.value, id)
    {
      if user.None? {
        return Failed(MustLogIn);
      }
      if deleteError.Some? {
        return Failed(deleteError.value);
      }
      var u := user.value;
      var kept := DeleteOwned(rows, u, id);
      FilterKeysUnique(rows, (x: AddressRow) => !Owned(x, u, id), AddressId);
      if OneDefaultEach(rows) {
        FilterPairwise(rows, (x: AddressRow) => !Owned(x, u, id), NotTwoDefaults);
      }
      forall i | 0 <= i < |kept| ensures kept[i].id < nextId {
        assert kept[i] in rows;
      }
      rows := kept;
      r := Done;
    }

    /**
     * `setDefaultAddress`: refused without a user. The first update clears all the user's
     * defaults (`clearError`: it failed unnoticed); a failed second update leaves the user
     * with the flags the first one left.
     */
    method SetDefaultAddress(user: Option<string>, id: nat, clearError: Option<string>, updateError: Option<string>) returns (r: Outcome)
      requires Valid()
      modifies this
      ensures Valid() && nextId == old(nextId)
      ensures user.None? ==> r == Failed(MustLogIn) && rows == old(rows)
      ensures user.Some? ==>
        var base := ClearStep(old(rows), user.value, None, clearError);
        (updateError.Some? ==> r == Failed(updateError.value) && rows == base) &&
        (updateError.None? ==> r == Done && rows == MarkDefault(base, user.value, id))
      ensures user.Some? && clearError.None? && updateError.None? ==> rows == SetDefaultRows(old(rows), user.value, id)
      ensures clearError.None? && OneDefaultEach(old(rows)) ==> OneDefaultEach(rows)
    {
      if user.None? {
        return Failed(MustLogIn);
      }
      if OneDefaultEach(rows) {
        SetDefaultSpec(rows, user.value, id);
        ClearDefaultsSpec(rows, user.value, None);
      }
      var cleared := ClearStep(rows, user.value, None, clearError);
      assert forall i :: 0 <= i < |rows| ==> cleared[i].id == rows[i].id;
      rows := cleared;
      if updateError.Some? {
        return Failed(updateError.value);
      }
      var marked := MarkDefault(rows, user.value, id);
      assert forall i :: 0 <= i < |rows| ==> marked[i].id == rows[i].id;
      rows := marked;
      r := Done;
    }

    function GetAddresses(user: Option<string>): seq<AddressRow>
      reads this
    {
      Addresses(rows, user)
    }

    function GetDefaultAddress(user: Option<string>): Option<AddressRow>
      reads this
    {
      DefaultAddress(rows, user)
    }
  }

  /** `getAddressById(id)`: nothing without a user or when the lookup fails; otherwise the user's single row with that id. */
  function AddressById(rows: seq<AddressRow>, user: Option<string>, id: nat, fetchFailed: bool): (r: Option<AddressRow>)
    ensures user.None? || fetchFailed ==> r.None?
    ensures r.Some? ==> r.value in rows && Owned(r.value, user.value, id)
  {
    if user.None? || fetchFailed then None
    else Single(rows, (x: AddressRow) => Owned(x, user.value, id))
  }

  /** With unique ids, a signed-in user gets the address exactly when they own a row with that id. */
  lemma AddressByIdSpec(rows: seq<AddressRow>, user: string, id: nat)
    requires KeysUnique(rows, AddressId)
    ensures AddressById(rows, Some(user), id, false).Some? <==> exists i :: 0 <= i < |rows| && Owned(rows[i], user, id)
  {
    var p := (x: AddressRow) => Owned(x, user, id);
    if exists i :: 0 <= i < |rows| && Owned(rows[i], user, id) {
      var i :| 0 <= i < |rows| && Owned(rows[i], user, id);
      forall j | 0 <= j < |rows| && j != i ensures !p(rows[j]) {
        if j < i { assert rows[j].id != rows[i].id; } else { assert rows[i].id != rows[j].id; }
      }
      SingleUnique(rows, p, i);
    } else {
      SingleNone(rows, p);
    }
  }

  /** A row of `customer_profiles`, keyed by the user's id. */
  datatype ProfileRow = ProfileRow(id: string, email: string, fullName: Option<string>, phone: Option<string>, avatarUrl: Option<string>, updatedAt: int)

  /** A `Partial<CustomerProfile>` update of the editable fields. */
  datatype ProfileUpdate = ProfileUpdate(fullName: Option<string>, phone: Option<string>, avatarUrl: Option<string>)

  /** The name and phone kept in the auth user's metadata. */
  datatype Metadata = Metadata(fullName: Option<string>, phone: Option<string>)

  /** `getProfile()`: nothing without a user or when the lookup fails; otherwise the single profile with the user's id. */
  function GetProfile(profiles: seq<ProfileRow>, user: Option<string>, fetchFailed: bool): (r: Option<ProfileRow>)
    ensures user.None? || fetchFailed ==> r.None?
    ensures r.Some? ==> r.value in profiles && r.value.id == user.value
    ensures user.Some? && !fetchFailed ==> (r.Some? <==> |Filter(profiles, (x: ProfileRow) => x.id == user.value)| == 1)
  {
    if user.None? || fetchFailed then None
    else Single(profiles, (x: ProfileRow) => x.id == user.value)
  }

  /** The profile after the update: the fields given replace the stored ones, and `updated_at` is the clock reading. */
  function UpdatedProfile(p: ProfileRow, upd: ProfileUpdate, now: int): ProfileRow {
    p.(fullName := if upd.fullName.Some? then upd.fullName else p.fullName,
       phone := if upd.phone.Some? then upd.phone else p.phone,
       avatarUrl := if upd.avatarUrl.Some? then upd.avatarUrl else p.avatarUrl,
       updatedAt := now)
  }

  /** `update({ ...updates, updated_at }).eq('id', user)`: the user's rows take the update, every other row stays. */
  function ProfilesAfter(profiles: seq<ProfileRow>, user: string, upd: ProfileUpdate, now: int): (r: seq<ProfileRow>)
    ensures |r| == |profiles|
    ensures forall i :: 0 <= i < |profiles| && profiles[i].id != user ==> r[i] == profiles[i]
    ensures forall i :: 0 <= i < |profiles| && profiles[i].id == user ==> r[i] == UpdatedProfile(profiles[i], upd, now)
  {
    seq(|profiles|, i requires 0 <= i < |profiles| => if profiles[i].id == user then UpdatedProfile(profiles[i], upd, now) else profiles[i])
  }

  /** The metadata after `updateUser`: the name and phone given replace the stored ones. */
  function MergedMetadata(m: Metadata, upd: ProfileUpdate): Metadata {
    Metadata(if upd.fullName.Some? then upd.fullName else m.fullName,
             if upd.phone.Some? then upd.phone else m.phone)
  }

  /** The metadata is written exactly when the update carries a non-empty name or phone. */
  predicate TouchesMetadata(upd: ProfileUpdate) {
    Catalog.StrTruthy(upd.fullName) || Catalog.StrTruthy(upd.phone)
  }

  /** The `customer_profiles` table and the auth users' metadata. */
  class ProfileStore {
    var profiles: seq<ProfileRow>
    var metadata: map<string, Metadata>

    constructor()
      ensures profiles == [] && metadata == map[]
    {
      profiles := [];
      metadata := map[];
    }

    /**
     * `updateProfile(updates)`: refused without a user; a failed update (`updateError`) is
     * raised before the metadata is touched; otherwise the user's profile rows take the
     * update, and the metadata takes the name and phone when either is non-empty.
     */
    method UpdateProfile(user: Option<string>, upd: ProfileUpdate, now: int, updateError: Option<string>) returns (r: Outcome)
      modifies this
      ensures user.None? ==> r == Failed(MustLogIn)
      ensures user.None? || updateError.Some? ==> profiles == old(profiles) && metadata == old(metadata)
      ensures user.Some? && updateError.Some? ==> r == Failed(updateError.value)
      ensures user.Some? && updateError.None? ==> r == Done && profiles == ProfilesAfter(old(profiles), user.value, upd, now)
      ensures user.Some? && updateError.None? && !TouchesMetadata(upd) ==> metadata == old(metadata)
      ensures user.Some? && updateError.None? && TouchesMetadata(upd) ==>
        metadata == old(metadata)[user.value := MergedMetadata(if user.value in old(metadata) then old(metadata)[user.value] else Metadata(None, None), upd)]
    {
      if user.None? {
        return Failed(MustLogIn);
      }
      if updateError.Some? {
        return Failed(updateError.value);
      }
      var u := user.value;
      profiles := ProfilesAfter(profiles, u, upd, now);
      if TouchesMetadata(upd) {
        var m := if u in metadata then metadata[u] else Metadata(None, None);
        metadata := metadata[u := MergedMetadata(m, upd)];
      }
      r := Done;
    }
  }

  /** With one profile per user, the updated profile is what `getProfile` then returns. */
  lemma UpdateThenGet(profiles: seq<ProfileRow>, user: string, upd: ProfileUpdate, now: int, k: nat)
    requires k < |profiles| && profiles[k].id == user
    requires forall j :: 0 <= j < |profiles| && j != k ==> profiles[j].id != user
    ensures GetProfile(ProfilesAfter(profiles, user, upd, now), Some(user), false) == Some(UpdatedProfile(profiles[k], upd, now))
  {
    SingleUnique(ProfilesAfter(profiles, user, upd, now), (x: ProfileRow) => x.id == user, k);
  }
}
