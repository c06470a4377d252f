/** `address.service.ts`: a user's delivery addresses, at most one of them the default. */
module Address {
  import opened Wrappers
  import opened Tables

  /** An `address` row. */
  datatype AddressRow = AddressRow(
    id: int,
    userId: int,
    name: string,
    phone: string,
    province: string,
    city: string,
    district: string,
    detail: string,
    postalCode: Option<string>,
    isDefault: bool)

  /** A `CreateAddressDto`, after validation. */
  datatype AddressInput = AddressInput(
    name: string,
    phone: string,
    province: string,
    city: string,
    district: string,
    detail: string,
    postalCode: Option<string>,
    isDefault: Option<bool>)

  /** A `Partial<CreateAddressDto>` with the DTO's fields only: `None` is a
      field the request leaves out. */
  datatype AddressPatch = AddressPatch(
    name: Option<string>,
    phone: Option<string>,
    province: Option<string>,
    city: Option<string>,
    district: Option<string>,
    detail: Option<string>,
    postalCode: Option<string>,
    isDefault: Option<bool>)

  function RowId(a: AddressRow): int
  {
    a.id
  }

  function OfUser(userId: int): AddressRow -> bool
  {
    (a: AddressRow) => a.userId == userId
  }

  /** `where: { id, userId }`. */
  function OwnedRow(id: int, userId: int): AddressRow -> bool
  {
    (a: AddressRow) => a.id == id && a.userId == userId
  }

  /** `where: { userId, isDefault: true }`. */
  function DefaultOf(userId: int): AddressRow -> bool
  {
    (a: AddressRow) => a.userId == userId && a.isDefault
  }

  /** The user's addresses that are not the default. */
  function PlainOf(userId: int): AddressRow -> bool
  {
    (a: AddressRow) => a.userId == userId && !a.isDefault
  }

  function Undefault(a: AddressRow): AddressRow
  {
    a.(isDefault := false)
  }

  /** No two addresses of one user are both the default. */
  function NotBothDefault(a: AddressRow, b: AddressRow): bool
  {
    !(a.userId == b.userId && a.isDefault && b.isDefault)
  }

  /** The table invariant: auto-increment ids and at most one default per user. */
  predicate AddressesValid(rows: seq<AddressRow>, nextId: int)
  {
    IdsBelow(rows, RowId, nextId) && Pairwise(rows, NotBothDefault)
  }

  /** The row `create({ userId, ...dto })` saves: `isDefault` takes its column default, false, unless given. */
  function NewRow(id: int, userId: int, input: AddressInput): AddressRow
  {
    AddressRow(id, userId, input.name, input.phone, input.province, input.city, input.district, input.detail,
               input.postalCode, input.isDefault == Some(true))
  }

  /** `Object.assign(address, updateData)`: every given field overwrites, the rest stay. */
  function Merge(a: AddressRow, patch: AddressPatch): AddressRow
  {
    a.(name := patch.name.GetOr(a.name),
       phone := patch.phone.GetOr(a.phone),
       province := patch.province.GetOr(a.province),
       city := patch.city.GetOr(a.city),
       district := patch.district.GetOr(a.district),
       detail := patch.detail.GetOr(a.detail),
       postalCode := if patch.postalCode.Some? then patch.postalCode else a.postalCode,
       isDefault := patch.isDefault.GetOr(a.isDefault))
  }

  /** `update({ userId, isDefault: true }, { isDefault: false })`. */
  function ClearDefaults(rows: seq<AddressRow>, userId: int): seq<AddressRow>
  {
    UpdateWhere(rows, DefaultOf(userId), Undefault)
  }

  /** Other users' addresses, query by query. */
  ghost predicate OthersUnchanged(before: seq<AddressRow>, after: seq<AddressRow>, userId: int)
  {
    forall v :: v != userId ==> Where(after, OfUser(v)) == Where(before, OfUser(v))
  }

  /** Clearing the defaults makes every address of the user non-default,
      changes nothing else, and keeps the invariant. */
  lemma ClearDefaultsSpec(rows: seq<AddressRow>, nextId: int, userId: int)
    requires AddressesValid(rows, nextId)
    ensures |ClearDefaults(rows, userId)| == |rows|
    ensures forall j :: 0 <= j < |rows| ==>
      ClearDefaults(rows, userId)[j] == if rows[j].userId == userId then Undefault(rows[j]) else rows[j]
    ensures AddressesValid(ClearDefaults(rows, userId), nextId)
    ensures OthersUnchanged(rows, ClearDefaults(rows, userId), userId)
  {
    var r := ClearDefaults(rows, userId);
    forall j | 0 <= j < |rows|
      ensures r[j] == if rows[j].userId == userId then Undefault(rows[j]) else rows[j]
    {
      UpdateWhereAt(rows, DefaultOf(userId), Undefault, j);
    }
    UpdateWhereKeepsIds(rows, DefaultOf(userId), Undefault, RowId, nextId);
    forall i, j | 0 <= i < j < |r| ensures NotBothDefault(r[i], r[j]) {
      assert NotBothDefault(rows[i], rows[j]);
    }
    forall v | v != userId ensures Where(r, OfUser(v)) == Where(rows, OfUser(v)) {
      WhereUpdate(rows, OfUser(v), DefaultOf(userId), Undefault);
    }
  }

  /** Overwriting one address of a user with another of the same user keeps
      the invariant when the new one is the default only if no other
      address of the user is, and leaves the other users alone. */
  lemma SetKeepsValid(rows: seq<AddressRow>, nextId: int, i: int, x: AddressRow)
    requires AddressesValid(rows, nextId) && 0 <= i < |rows|
    requires x.id == rows[i].id && x.userId == rows[i].userId
    requires x.isDefault ==> forall j :: 0 <= j < |rows| && j != i ==> !DefaultOf(x.userId)(rows[j])
    ensures AddressesValid(rows[i := x], nextId)
    ensures OthersUnchanged(rows, rows[i := x], x.userId)
  {
    SetKeepsIds(rows, RowId, nextId, i, x);
    var t := rows[i := x];
    forall a, b | 0 <= a < b < |t| ensures NotBothDefault(t[a], t[b]) {
      assert NotBothDefault(rows[a], rows[b]);
    }
    forall v | v != x.userId ensures Where(t, OfUser(v)) == Where(rows, OfUser(v)) {
      WhereSetOther(rows, i, x, OfUser(v));
    }
  }

  /** `create(userId, dto)`: the table after the save. */
  function CreateRows(rows: seq<AddressRow>, nextId: int, userId: int, input: AddressInput): seq<AddressRow>
  {
    var base := if input.isDefault == Some(true) then ClearDefaults(rows, userId) else rows;
    base + [NewRow(nextId, userId, input)]
  }

  /** `create` appends one address for the user with the given fields; a
      default one becomes the user's only default, a non-default one changes
      nothing else; other users are untouched and the invariant holds. */
  lemma CreateSpec(rows: seq<AddressRow>, nextId: int, userId: int, input: AddressInput)
    requires AddressesValid(rows, nextId)
    ensures AddressesValid(CreateRows(rows, nextId, userId, input), nextId + 1)
    ensures |CreateRows(rows, nextId, userId, input)| == |rows| + 1
    ensures CreateRows(rows, nextId, userId, input)[|rows|] == NewRow(nextId, userId, input)
    ensures input.isDefault != Some(true) ==> CreateRows(rows, nextId, userId, input) == rows + [NewRow(nextId, userId, input)]
    ensures input.isDefault == Some(true) ==> forall j :: 0 <= j < |rows| + 1 ==>
      (DefaultOf(userId)(CreateRows(rows, nextId, userId, input)[j]) <==> j == |rows|)
    ensures OthersUnchanged(rows, CreateRows(rows, nextId, userId, input), userId)
  {
    var a := NewRow(nextId, userId, input);
    var base := if input.isDefault == Some(true) then ClearDefaults(rows, userId) else rows;
    ClearDefaultsSpec(rows, nextId, userId);
    AppendKeepsIds(base, RowId, nextId, [a]);
    var t := base + [a];
    forall i, j | 0 <= i < j < |t| ensures NotBothDefault(t[i], t[j]) {
      if j < |base| {
        assert NotBothDefault(base[i], base[j]);
      }
    }
    forall v | v != userId ensures Where(t, OfUser(v)) == Where(rows, OfUser(v)) {
      WhereAppend(base, a, OfUser(v));
    }
  }

  /** `findOne(userId, id)`. */
  function OwnAddress(rows: seq<AddressRow>, userId: int, id: int): Result<AddressRow>
  {
    match FirstIndex(rows, OwnedRow(id, userId))
    case None => Err(NotFound("地址不存在"))
    case Some(i) => Ok(rows[i])
  }

  /** `findOne` yields the user's own address with that id, and fails exactly when there is none. */
  lemma OwnAddressSpec(rows: seq<AddressRow>, userId: int, id: int)
    ensures OwnAddress(rows, userId, id).Err? <==> !exists j :: 0 <= j < |rows| && rows[j].id == id && rows[j].userId == userId
    ensures OwnAddress(rows, userId, id).Err? ==> OwnAddress(rows, userId, id).failure == NotFound("地址不存在")
    ensures OwnAddress(rows, userId, id).Ok? ==>
      OwnAddress(rows, userId, id).value in rows && OwnAddress(rows, userId, id).value.id == id
      && OwnAddress(rows, userId, id).value.userId == userId
  {
  }

  /** `update(userId, id, updateData)`. */
  function UpdateOutcome(rows: seq<AddressRow>, userId: int, id: int, patch: AddressPatch): Change<AddressRow, AddressRow>
  {
    match FirstIndex(rows, OwnedRow(id, userId))
    case None => Change(Err(NotFound("地址不存在")), rows)
    case Some(i) =>
      var a := Merge(rows[i], patch);
      var base := if patch.isDefault == Some(true) then ClearDefaults(rows, userId) else rows;
      Change(Ok(a), base[i := a])
  }

  /** `update` fails, changing nothing, when the user owns no such address.
      Otherwise that address takes the given fields, a patch that makes it
      the default also clears the user's other defaults, and nothing else
      changes. */
  lemma UpdateSpec(rows: seq<AddressRow>, nextId: int, userId: int, id: int, patch: AddressPatch)
    requires AddressesValid(rows, nextId)
    ensures UpdateOutcome(rows, userId, id, patch).result.Err? <==>
      !exists j :: 0 <= j < |rows| && rows[j].id == id && rows[j].userId == userId
    ensures UpdateOutcome(rows, userId, id, patch).result.Err? ==> UpdateOutcome(rows, userId, id, patch).rows == rows
    ensures UpdateOutcome(rows, userId, id, patch).result.Ok? ==>
      var o := UpdateOutcome(rows, userId, id, patch);
      |o.rows| == |rows|
      && (forall j :: 0 <= j < |rows| ==>
            o.rows[j] == (if rows[j].id == id then Merge(rows[j], patch)
                          else if patch.isDefault == Some(true) && rows[j].userId == userId then Undefault(rows[j])
                          else rows[j]))
      && o.result.value.id == id && o.result.value.userId == userId
  {
    match FirstIndex(rows, OwnedRow(id, userId))
    case None =>
    case Some(i) =>
      ClearDefaultsSpec(rows, nextId, userId);
      forall j | 0 <= j < |rows| && j != i ensures rows[j].id != id {
        IdsUnique(rows, RowId, nextId, i, j);
      }
  }

  /** After `update` the invariant still holds and other users' addresses are untouched. */
  lemma UpdateKeepsValid(rows: seq<AddressRow>, nextId: int, userId: int, id: int, patch: AddressPatch)
    requires AddressesValid(rows, nextId)
    ensures AddressesValid(UpdateOutcome(rows, userId, id, patch).rows, nextId)
    ensures OthersUnchanged(rows, UpdateOutcome(rows, userId, id, patch).rows, userId)
  {
    match FirstIndex(rows, OwnedRow(id, userId))
    case None =>
    case Some(i) =>
      var a := Merge(rows[i], patch);
      if patch.isDefault == Some(true) {
        ClearDefaultsSpec(rows, nextId, userId);
        SetKeepsValid(ClearDefaults(rows, userId), nextId, i, a);
      } else {
        if a.isDefault {
          forall j | 0 <= j < |rows| && j != i ensures !DefaultOf(userId)(rows[j]) {
            if j < i { assert NotBothDefault(rows[j], rows[i]); } else { assert NotBothDefault(rows[i], rows[j]); }
          }
        }
        SetKeepsValid(rows, nextId, i, a);
      }
  }

  /** A patch that makes the address the default leaves it the user's only default. */
  lemma UpdateSoleDefault(rows: seq<AddressRow>, nextId: int, userId: int, id: int, patch: AddressPatch)
    requires AddressesValid(rows, nextId)
    ensures UpdateOutcome(rows, userId, id, patch).result.Ok? && patch.isDefault == Some(true) ==>
      forall j :: 0 <= j < |rows| ==>
        (DefaultOf(userId)(UpdateOutcome(rows, userId, id, patch).rows[j])
         <==> UpdateOutcome(rows, userId, id, patch).rows[j].id == id)
  {
    match FirstIndex(rows, OwnedRow(id, userId))
    case None =>
    case Some(i) =>
      if patch.isDefault == Some(true) {
        var t := UpdateOutcome(rows, userId, id, patch).rows;
        ClearDefaultsSpec(rows, nextId, userId);
        forall j | 0 <= j < |rows| ensures DefaultOf(userId)(t[j]) <==> t[j].id == id {
          if j != i {
            IdsUnique(rows, RowId, nextId, i, j);
          }
        }
      }
  }

  /** `setDefault(userId, id)`: clears the user's defaults first, then looks the address up. */
  function SetDefaultOutcome(rows: seq<AddressRow>, userId: int, id: int): Change<AddressRow, AddressRow>
  {
    var cleared := ClearDefaults(rows, userId);
    match FirstIndex(cleared, OwnedRow(id, userId))
    case None => Change(Err(NotFound("地址不存在")), cleared)
    case Some(i) =>
      var a := cleared[i].(isDefault := true);
      Change(Ok(a), cleared[i := a])
  }

  /** On success the address is the user's one and only default and nothing
      else changes. On an address the user does not own it fails, yet the
      clearing already happened: the user is left with no default at all. */
  lemma SetDefaultSpec(rows: seq<AddressRow>, nextId: int, userId: int, id: int)
    requires AddressesValid(rows, nextId)
    ensures SetDefaultOutcome(rows, userId, id).result.Err? <==>
      !exists j :: 0 <= j < |rows| && rows[j].id == id && rows[j].userId == userId
    ensures SetDefaultOutcome(rows, userId, id).result.Err? ==>
      SetDefaultOutcome(rows, userId, id).rows == ClearDefaults(rows, userId)
      && forall j :: 0 <= j < |rows| ==> !DefaultOf(userId)(SetDefaultOutcome(rows, userId, id).rows[j])
    ensures SetDefaultOutcome(rows, userId, id).result.Ok? ==>
      var o := SetDefaultOutcome(rows, userId, id);
      |o.rows| == |rows|
      && (forall j :: 0 <= j < |rows| ==>
            o.rows[j] == (if rows[j].id == id then rows[j].(isDefault := true)
                          else if rows[j].userId == userId then Undefault(rows[j])
                          else rows[j]))
      && (forall j :: 0 <= j < |rows| ==> (DefaultOf(userId)(o.rows[j]) <==> o.rows[j].id == id))
      && o.result.value.id == id && o.result.value.isDefault
    ensures AddressesValid(SetDefaultOutcome(rows, userId, id).rows, nextId)
    ensures OthersUnchanged(rows, SetDefaultOutcome(rows, userId, id).rows, userId)
  {
    var cleared := ClearDefaults(rows, userId);
    ClearDefaultsSpec(rows, nextId, userId);
    match FirstIndex(cleared, OwnedRow(id, userId))
    case None =>
      forall j | 0 <= j < |rows| && rows[j].id == id ensures rows[j].userId != userId {
        assert !OwnedRow(id, userId)(cleared[j]);
      }
    case Some(i) =>
      var a := cleared[i].(isDefault := true);
      forall j | 0 <= j < |rows| && j != i ensures rows[j].id != id {
        IdsUnique(rows, RowId, nextId, i, j);
      }
      SetKeepsValid(cleared, nextId, i, a);
  }

  /** `remove(userId, id)`: `delete({ id, userId })`, not found when nothing was deleted. */
  function RemoveOutcome(rows: seq<AddressRow>, userId: int, id: int): Change<Unit, AddressRow>
  {
    var kept := Drop(rows, OwnedRow(id, userId));
    if Count(rows, OwnedRow(id, userId)) == 0 then Change(Err(NotFound("地址不存在")), kept)
    else Change(Ok(Unit), kept)
  }

  /** `remove` fails exactly when the user owns no address with that id,
      deletes only that address, and keeps the invariant. */
  lemma RemoveSpec(rows: seq<AddressRow>, nextId: int, userId: int, id: int)
    requires AddressesValid(rows, nextId)
    ensures RemoveOutcome(rows, userId, id).result.Err? <==>
      !exists j :: 0 <= j < |rows| && rows[j].id == id && rows[j].userId == userId
    ensures RemoveOutcome(rows, userId, id).result.Err? ==> RemoveOutcome(rows, userId, id).rows == rows
    ensures forall a :: a in RemoveOutcome(rows, userId, id).rows <==> a in rows && !(a.id == id && a.userId == userId)
    ensures AddressesValid(RemoveOutcome(rows, userId, id).rows, nextId)
    ensures OthersUnchanged(rows, RemoveOutcome(rows, userId, id).rows, userId)
  {
    WhereAt(rows, OwnedRow(id, userId));
    if Count(rows, OwnedRow(id, userId)) == 0 {
      DropNothing(rows, OwnedRow(id, userId));
    }
    DropKeepsIds(rows, OwnedRow(id, userId), RowId, nextId);
    DropPairwise(rows, OwnedRow(id, userId), NotBothDefault);
    forall v | v != userId ensures Where(Drop(rows, OwnedRow(id, userId)), OfUser(v)) == Where(rows, OfUser(v)) {
      WhereDrop(rows, OfUser(v), OwnedRow(id, userId));
    }
  }

  /** `getDefaultAddress(userId)`: the first default of the user, or null. */
  function DefaultAddress(rows: seq<AddressRow>, userId: int): Option<AddressRow>
  {
    match FirstIndex(rows, DefaultOf(userId))
    case None => None
    case Some(i) => Some(rows[i])
  }

  /** There is a default address exactly when the user has one, and under
      the invariant it is the only one. */
  lemma DefaultAddressSpec(rows: seq<AddressRow>, nextId: int, userId: int)
    requires AddressesValid(rows, nextId)
    ensures DefaultAddress(rows, userId).None? <==> forall j :: 0 <= j < |rows| ==> !DefaultOf(userId)(rows[j])
    ensures DefaultAddress(rows, userId).Some? ==>
      var a := DefaultAddress(rows, userId).value;
      a in rows && a.userId == userId && a.isDefault
      && forall j :: 0 <= j < |rows| && DefaultOf(userId)(rows[j]) ==> rows[j] == a
  {
    match FirstIndex(rows, DefaultOf(userId))
    case None =>
    case Some(i) =>
      forall j | 0 <= j < |rows| && DefaultOf(userId)(rows[j]) ensures j == i {
      }
  }

  /** After a successful `setDefault`, `getDefaultAddress` returns that address. */
  lemma SetDefaultThenDefault(rows: seq<AddressRow>, nextId: int, userId: int, id: int)
    requires AddressesValid(rows, nextId)
    requires SetDefaultOutcome(rows, userId, id).result.Ok?
    ensures DefaultAddress(SetDefaultOutcome(rows, userId, id).rows, userId) == Some(SetDefaultOutcome(rows, userId, id).result.value)
  {
    var o := SetDefaultOutcome(rows, userId, id);
    SetDefaultSpec(rows, nextId, userId, id);
    DefaultAddressSpec(o.rows, nextId, userId);
    var k := FirstIndex(ClearDefaults(rows, userId), OwnedRow(id, userId)).value;
    assert o.rows[k] == o.result.value;
    assert DefaultOf(userId)(o.rows[k]);
  }

  /** `getUserAddresses(userId)`: `order: { isDefault: 'DESC', created_at: 'DESC' }`. */
  function UserAddresses(rows: seq<AddressRow>, userId: int): seq<AddressRow>
  {
    Newest(Where(rows, DefaultOf(userId))) + Newest(Where(rows, PlainOf(userId)))
  }

  lemma {:induction false} CountSplit(rows: seq<AddressRow>, userId: int)
    ensures Count(rows, OfUser(userId)) == Count(rows, DefaultOf(userId)) + Count(rows, PlainOf(userId))
  {
    if rows != [] {
      CountSplit(rows[..|rows| - 1], userId);
    }
  }

  /** The list holds exactly the user's addresses, each once: the default
      ones before the others, and newest first among equals. Under the
      invariant only the first one can be the default. */
  lemma UserAddressesSpec(rows: seq<AddressRow>, nextId: int, userId: int)
    requires AddressesValid(rows, nextId)
    ensures forall a :: a in UserAddresses(rows, userId) <==> a in rows && a.userId == userId
    ensures |UserAddresses(rows, userId)| == Count(rows, OfUser(userId))
    ensures forall i, j :: 0 <= i < j < |UserAddresses(rows, userId)| ==>
      (UserAddresses(rows, userId)[j].isDefault ==> UserAddresses(rows, userId)[i].isDefault)
      && (UserAddresses(rows, userId)[i].isDefault == UserAddresses(rows, userId)[j].isDefault ==>
            UserAddresses(rows, userId)[i].id > UserAddresses(rows, userId)[j].id)
    ensures forall i :: 1 <= i < |UserAddresses(rows, userId)| ==> !UserAddresses(rows, userId)[i].isDefault
  {
    var d := Newest(Where(rows, DefaultOf(userId)));
    var n := Newest(Where(rows, PlainOf(userId)));
    CountSplit(rows, userId);
    NewestWhereDescending(rows, DefaultOf(userId), RowId, nextId);
    NewestWhereDescending(rows, PlainOf(userId), RowId, nextId);
    NewestMembers(Where(rows, DefaultOf(userId)));
    NewestMembers(Where(rows, PlainOf(userId)));
    CountAtMostOne(rows, DefaultOf(userId), NotBothDefault);
    DefaultsFirst(d, n);
  }

  /** Defaults in descending id order followed by non-defaults in descending id order. */
  lemma DefaultsFirst(d: seq<AddressRow>, n: seq<AddressRow>)
    requires forall a :: a in d ==> a.isDefault
    requires forall a :: a in n ==> !a.isDefault
    requires Descending(d, RowId) && Descending(n, RowId) && |d| <= 1
    ensures forall i, j :: 0 <= i < j < |d + n| ==>
      ((d + n)[j].isDefault ==> (d + n)[i].isDefault)
      && ((d + n)[i].isDefault == (d + n)[j].isDefault ==> (d + n)[i].id > (d + n)[j].id)
    ensures forall i :: 1 <= i < |d + n| ==> !(d + n)[i].isDefault
  {
    var r := d + n;
    forall i, j | 0 <= i < j < |r|
      ensures (r[j].isDefault ==> r[i].isDefault) && (r[i].isDefault == r[j].isDefault ==> r[i].id > r[j].id)
    {
      if i >= |d| {
        assert r[i] == n[i - |d|] && r[j] == n[j - |d|];
      } else {
        assert r[i] == d[i] && r[j] == n[j - |d|];
        assert d[i] in d && n[j - |d|] in n;
      }
    }
    forall i | 1 <= i < |r| ensures !r[i].isDefault {
      assert r[i] == n[i - |d|];
      assert n[i - |d|] in n;
    }
  }

  lemma NewestMembers(s: seq<AddressRow>)
    ensures forall a :: a in Newest(s) <==> a in s
  {
    forall a | a in Newest(s) ensures a in s {
      var k :| 0 <= k < |Newest(s)| && Newest(s)[k] == a;
      NewestAt(s, k);
    }
    forall a | a in s ensures a in Newest(s) {
      var k :| 0 <= k < |s| && s[k] == a;
      NewestAt(s, |s| - 1 - k);
    }
  }

  /** The address table and its auto-increment counter. */
  class AddressService {
    var addresses: seq<AddressRow>
    var nextId: int

    ghost predicate Valid()
      reads this
    {
      AddressesValid(addresses, nextId)
    }

    constructor ()
      ensures Valid() && addresses == []
    {
      addresses, nextId := [], 1;
    }

    method Create(userId: int, input: AddressInput) returns (address: AddressRow)
      requires Valid()
      modifies this
      ensures Valid()
      ensures address == NewRow(old(nextId), userId, input)
      ensures addresses == CreateRows(old(addresses), old(nextId), userId, input)
      ensures nextId == old(nextId) + 1
    {
      CreateSpec(addresses, nextId, userId, input);
      if input.isDefault == Some(true) {
        addresses := UpdateRows(addresses, DefaultOf(userId), Undefault);
      }
      address := AddressRow(nextId, userId, input.name, input.phone, input.province, input.city, input.district,
                            input.detail, input.postalCode, input.isDefault == Some(true));
      addresses := addresses + [address];
      nextId := nextId + 1;
    }

    method FindOne(userId: int, id: int) returns (r: Result<AddressRow>)
      ensures r == OwnAddress(addresses, userId, id)
    {
      var found := FindFirst(addresses, OwnedRow(id, userId));
      if found.None? {
        return Err(NotFound("地址不存在"));
      }
      r := Ok(addresses[found.value]);
    }

    method Update(userId: int, id: int, patch: AddressPatch) returns (r: Result<AddressRow>)
      requires Valid()
      modifies this`addresses
      ensures Valid()
      ensures r == UpdateOutcome(old(addresses), userId, id, patch).result
      ensures addresses == UpdateOutcome(old(addresses), userId, id, patch).rows
    {
      UpdateSpec(addresses, nextId, userId, id, patch);
      UpdateKeepsValid(addresses, nextId, userId, id, patch);
      UpdateSoleDefault(addresses, nextId, userId, id, patch);
      var found := FindFirst(addresses, OwnedRow(id, userId));
      if found.None? {
        return Err(NotFound("地址不存在"));
      }
      var address := addresses[found.value];
      if patch.isDefault == Some(true) {
        addresses := UpdateRows(addresses, DefaultOf(userId), Undefault);
      }
      address := Merge(address, patch);
      addresses := addresses[found.value := address];
      r := Ok(address);
    }

    method Remove(userId: int, id: int) returns (r: Result<Unit>)
      requires Valid()
      modifies this`addresses
      ensures Valid()
      ensures r == RemoveOutcome(old(addresses), userId, id).result
      ensures addresses == RemoveOutcome(old(addresses), userId, id).rows
    {
      RemoveSpec(addresses, nextId, userId, id);
      var affected;
      addresses, affected := DeleteWhere(addresses, OwnedRow(id, userId));
      r := if affected == 0 then Err(NotFound("地址不存在")) else Ok(Unit);
    }

    method SetDefault(userId: int, id: int) returns (r: Result<AddressRow>)
      requires Valid()
      modifies this`addresses
      ensures Valid()
      ensures r == SetDefaultOutcome(old(addresses), userId, id).result
      ensures addresses == SetDefaultOutcome(old(addresses), userId, id).rows
    {
      SetDefaultSpec(addresses, nextId, userId, id);
      addresses := UpdateRows(addresses, DefaultOf(userId), Undefault);
      var found := FindFirst(addresses, OwnedRow(id, userId));
      if found.None? {
        return Err(NotFound("地址不存在"));
      }
      var address := addresses[found.value].(isDefault := true);
      addresses := addresses[found.value := address];
      r := Ok(address);
    }

    method GetDefaultAddress(userId: int) returns (r: Option<AddressRow>)
      ensures r == DefaultAddress(addresses, userId)
    {
      var found := FindFirst(addresses, DefaultOf(userId));
      r := if found.None? then None else Some(addresses[found.value]);
    }
  }
}
