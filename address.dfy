/** controllers/addressController.js: each user's delivery addresses and the
    `is_default` flag the controller keeps on at most one of them. The
    UserAddress table is a sequence of rows in table order; `AddressBook`
    holds it and its methods are the controller's write operations. */
module Addresses {
  import opened Wrappers

  datatype AddressType = Home | Office

  /** A UserAddress row; `createdAt` is an instant in milliseconds. */
  datatype Address = Address(
    id: int, userId: int, receiverName: string, receiverPhone: string, address: string,
    addressType: AddressType, isDefault: bool, createdAt: int)

  // ---------------------------------------------------------------------
  // The request schema.

  /** `req.body`; each field present or absent, values of the field's type. */
  datatype AddressRequest = AddressRequest(
    receiverName: Option<string>, receiverPhone: Option<string>, address: Option<string>,
    addressType: Option<string>, isDefault: Option<bool>)

  datatype AddressField = ReceiverNameField | ReceiverPhoneField | AddressTextField | AddressTypeField

  /** `Joi.string().max(n).required()`: present, not empty (Joi refuses the
      empty string unless it is allowed) and at most `n` characters. */
  predicate RequiredText(s: Option<string>, max: nat) {
    s.Some? && 1 <= |s.value| <= max
  }

  predicate TypeValid(t: Option<string>) {
    t.None? || t == Some("home") || t == Some("office")
  }

  /** `addressSchema.validate(req.body)`: the first field, in schema order,
      that breaks its rule. */
  function ValidateAddress(req: AddressRequest): (r: Option<AddressField>)
    ensures r.None? <==>
      RequiredText(req.receiverName, 255) && RequiredText(req.receiverPhone, 20)
      && req.address.Some? && req.address.value != [] && TypeValid(req.addressType)
    ensures r == Some(ReceiverNameField) <==> !RequiredText(req.receiverName, 255)
    ensures r == Some(ReceiverPhoneField) <==> RequiredText(req.receiverName, 255) && !RequiredText(req.receiverPhone, 20)
    ensures r == Some(AddressTextField) <==>
      RequiredText(req.receiverName, 255) && RequiredText(req.receiverPhone, 20)
      && (req.address.None? || req.address.value == [])
    ensures r == Some(AddressTypeField) <==>
      RequiredText(req.receiverName, 255) && RequiredText(req.receiverPhone, 20)
      && req.address.Some? && req.address.value != [] && !TypeValid(req.addressType)
  {
    if !RequiredText(req.receiverName, 255) then Some(ReceiverNameField)
    else if !RequiredText(req.receiverPhone, 20) then Some(ReceiverPhoneField)
    else if req.address.None? || req.address.value == [] then Some(AddressTextField)
    else if !TypeValid(req.addressType) then Some(AddressTypeField)
    else None
  }

  function TypeOf(t: string): AddressType {
    if t == "office" then Office else Home
  }

  /** The row `UserAddress.create({...req.body, user_id, is_default})`
      stores: `address_type` defaults to home. */
  function NewAddress(id: int, user: int, req: AddressRequest, isDefault: bool, now: int): (a: Address)
    requires ValidateAddress(req).None?
    ensures a.id == id && a.userId == user && a.isDefault == isDefault && a.createdAt == now
    ensures a.receiverName == req.receiverName.value && a.receiverPhone == req.receiverPhone.value
    ensures a.address == req.address.value
    ensures a.addressType == (if req.addressType == Some("office") then Office else Home)
  {
    Address(id, user, req.receiverName.value, req.receiverPhone.value, req.address.value,
            if req.addressType.Some? then TypeOf(req.addressType.value) else Home, isDefault, now)
  }

  /** `address.update(req.body)`: the fields the request carries replace the
      stored ones; id, owner and creation time stay. */
  function Updated(a: Address, req: AddressRequest): (b: Address)
    requires ValidateAddress(req).None?
    ensures b.id == a.id && b.userId == a.userId && b.createdAt == a.createdAt
    ensures b.isDefault == (if req.isDefault.Some? then req.isDefault.value else a.isDefault)
    ensures req.addressType.None? ==> b.addressType == a.addressType
    ensures req.addressType.Some? ==> b.addressType == (if req.addressType == Some("office") then Office else Home)
    ensures b.receiverName == req.receiverName.value && b.receiverPhone == req.receiverPhone.value
    ensures b.address == req.address.value
  {
    a.(receiverName := req.receiverName.value, receiverPhone := req.receiverPhone.value,
       address := req.address.value,
       addressType := if req.addressType.Some? then TypeOf(req.addressType.value) else a.addressType,
       isDefault := req.isDefault.GetOr(a.isDefault))
  }

  // ---------------------------------------------------------------------
  // Table functions.

  /** `findOne({ where: { id, user_id } })`. */
  function FindOwned(rows: seq<Address>, id: int, user: int): (r: Option<nat>)
    ensures r.None? <==> forall i :: 0 <= i < |rows| ==> !(rows[i].id == id && rows[i].userId == user)
    ensures r.Some? ==> r.value < |rows| && rows[r.value].id == id && rows[r.value].userId == user
  {
    if rows == [] then None
    else if rows[0].id == id && rows[0].userId == user then Some(0)
    else match FindOwned(rows[1..], id, user)
      case None => None
      case Some(i) => Some(i + 1)
  }

  /** `UserAddress.update({ is_default: false }, { where: { user_id, is_default: true } })`. */
  function UnsetDefaults(rows: seq<Address>, user: int): (r: seq<Address>)
    ensures |r| == |rows|
    ensures forall i :: 0 <= i < |rows| ==>
      r[i] == if rows[i].userId == user then rows[i].(isDefault := false) else rows[i]
  {
    if rows == [] then []
    else [if rows[0].userId == user then rows[0].(isDefault := false) else rows[0]] + UnsetDefaults(rows[1..], user)
  }

  /** The rows owned by `user`, in table order. */
  function RowsOf(rows: seq<Address>, user: int): (r: seq<Address>)
    ensures forall a :: a in r <==> a in rows && a.userId == user
    ensures |r| <= |rows|
  {
    if rows == [] then []
    else (if rows[0].userId == user then [rows[0]] else []) + RowsOf(rows[1..], user)
  }

  function DefaultFlag(a: Address, user: int): nat {
    if a.userId == user && a.isDefault then 1 else 0
  }

  /** How many of `user`'s rows are flagged default. */
  function CountDefaults(rows: seq<Address>, user: int): nat {
    if rows == [] then 0 else DefaultFlag(rows[0], user) + CountDefaults(rows[1..], user)
  }

  /** `findOne({ where: { user_id }, order: [['created_at', 'DESC']] })`:
      a row of `user` created last (the first such in table order on a tie). */
  function LatestOf(rows: seq<Address>, user: int): (r: Option<nat>)
    ensures r.None? <==> forall i :: 0 <= i < |rows| ==> rows[i].userId != user
    ensures r.Some? ==> r.value < |rows| && rows[r.value].userId == user
    ensures r.Some? ==> forall j :: 0 <= j < |rows| && rows[j].userId == user ==> rows[j].createdAt <= rows[r.value].createdAt
  {
    if rows == [] then None
    else
      var rest := LatestOf(rows[1..], user);
      if rows[0].userId != user then
        (match rest case None => None case Some(k) => Some(k + 1))
      else
        match rest
        case None => Some(0)
        case Some(k) => if rows[k + 1].createdAt > rows[0].createdAt then Some(k + 1) else Some(0)
  }

  // ---------------------------------------------------------------------
  // Counting lemmas.

  lemma {:induction false} CountConcat(a: seq<Address>, b: seq<Address>, user: int)
    ensures CountDefaults(a + b, user) == CountDefaults(a, user) + CountDefaults(b, user)
  {
    if a == [] {
      assert a + b == b;
    } else {
      assert (a + b)[0] == a[0];
      assert (a + b)[1..] == a[1..] + b;
      CountConcat(a[1..], b, user);
    }
  }

  /** Replacing one row changes the count by the two rows' flags. */
  lemma CountUpdate(rows: seq<Address>, i: nat, x: Address, user: int)
    requires i < |rows|
    ensures CountDefaults(rows[i := x], user) + DefaultFlag(rows[i], user)
            == CountDefaults(rows, user) + DefaultFlag(x, user)
  {
    assert rows == rows[..i] + [rows[i]] + rows[i + 1..];
    assert rows[i := x] == rows[..i] + [x] + rows[i + 1..];
    CountConcat(rows[..i] + [rows[i]], rows[i + 1..], user);
    CountConcat(rows[..i], [rows[i]], user);
    CountConcat(rows[..i] + [x], rows[i + 1..], user);
    CountConcat(rows[..i], [x], user);
  }

  /** Removing one row lowers the count by its flag. */
  lemma CountRemove(rows: seq<Address>, i: nat, user: int)
    requires i < |rows|
    ensures CountDefaults(rows[..i] + rows[i + 1..], user) + DefaultFlag(rows[i], user) == CountDefaults(rows, user)
  {
    assert rows == rows[..i] + ([rows[i]] + rows[i + 1..]);
    CountConcat(rows[..i], [rows[i]] + rows[i + 1..], user);
    CountConcat([rows[i]], rows[i + 1..], user);
    CountConcat(rows[..i], rows[i + 1..], user);
  }

  /** After the bulk unset, `user` has no default left; everyone else keeps theirs. */
  lemma {:induction false} CountAfterUnset(rows: seq<Address>, user: int, u: int)
    ensures CountDefaults(UnsetDefaults(rows, user), u) == if u == user then 0 else CountDefaults(rows, u)
  {
    if rows != [] {
      var r := UnsetDefaults(rows, user);
      assert r[1..] == UnsetDefaults(rows[1..], user);
      CountAfterUnset(rows[1..], user, u);
    }
  }

  /** A user with no rows has no default. */
  lemma {:induction false} CountWithoutRows(rows: seq<Address>, user: int)
    requires forall i :: 0 <= i < |rows| ==> rows[i].userId != user
    ensures CountDefaults(rows, user) == 0
  {
    if rows != [] {
      CountWithoutRows(rows[1..], user);
    }
  }

  // ---------------------------------------------------------------------
  // Other users' rows.

  lemma {:induction false} RowsOfConcat(a: seq<Address>, b: seq<Address>, u: int)
    ensures RowsOf(a + b, u) == RowsOf(a, u) + RowsOf(b, u)
  {
    if a == [] {
      assert a + b == b;
    } else {
      assert (a + b)[0] == a[0];
      assert (a + b)[1..] == a[1..] + b;
      RowsOfConcat(a[1..], b, u);
      var head := if a[0].userId == u then [a[0]] else [];
      assert RowsOf(a + b, u) == head + RowsOf(a[1..] + b, u);
      assert RowsOf(a, u) == head + RowsOf(a[1..], u);
    }
  }

  /** Replacing a row that neither was nor becomes `u`'s leaves `u`'s rows as they were. */
  lemma RowsOfUpdate(rows: seq<Address>, i: nat, x: Address, u: int)
    requires i < |rows| && rows[i].userId != u && x.userId != u
    ensures RowsOf(rows[i := x], u) == RowsOf(rows, u)
  {
    var pre, post := rows[..i], rows[i + 1..];
    assert rows == pre + ([rows[i]] + post);
    assert rows[i := x] == pre + ([x] + post);
    RowsOfSplit(pre, rows[i], post, u);
    RowsOfSplit(pre, x, post, u);
  }

  lemma RowsOfRemove(rows: seq<Address>, i: nat, u: int)
    requires i < |rows| && rows[i].userId != u
    ensures RowsOf(rows[..i] + rows[i + 1..], u) == RowsOf(rows, u)
  {
    var pre, post := rows[..i], rows[i + 1..];
    assert rows == pre + ([rows[i]] + post);
    RowsOfSplit(pre, rows[i], post, u);
    RowsOfConcat(pre, post, u);
  }

  /** A row that is not `u`'s does not appear among `u`'s rows. */
  lemma RowsOfSplit(pre: seq<Address>, x: Address, post: seq<Address>, u: int)
    requires x.userId != u
    ensures RowsOf(pre + ([x] + post), u) == RowsOf(pre, u) + RowsOf(post, u)
  {
    RowsOfConcat(pre, [x] + post, u);
    assert ([x] + post)[1..] == post;
  }

  lemma {:induction false} RowsOfUnset(rows: seq<Address>, user: int, u: int)
    requires u != user
    ensures RowsOf(UnsetDefaults(rows, user), u) == RowsOf(rows, u)
  {
    if rows != [] {
      var r := UnsetDefaults(rows, user);
      assert r[1..] == UnsetDefaults(rows[1..], user);
      RowsOfUnset(rows[1..], user, u);
    }
  }

  // ---------------------------------------------------------------------
  // The state changes, as functions of the rows.

  /** `createAddress`'s writes: the unset when the request asks for a
      default, then the new row, flagged default when asked or when the user
      had no address yet. */
  function CreateRows(rows: seq<Address>, id: int, user: int, req: AddressRequest, now: int): (r: seq<Address>)
    requires ValidateAddress(req).None?
    ensures |r| == |rows| + 1
    ensures r[|rows|].id == id && r[|rows|].userId == user && r[|rows|].createdAt == now
    ensures r[|rows|] == NewAddress(id, user, req, r[|rows|].isDefault, now)
    ensures req.isDefault == Some(true) ==> r[|rows|].isDefault
    ensures req.isDefault != Some(true) ==> r[..|rows|] == rows
    ensures req.isDefault == Some(true) ==> forall j :: 0 <= j < |rows| ==>
      r[j] == if rows[j].userId == user then rows[j].(isDefault := false) else rows[j]
  {
    var requested := req.isDefault == Some(true);
    var before := if requested then UnsetDefaults(rows, user) else rows;
    var count := |RowsOf(before, user)|;
    before + [NewAddress(id, user, req, count == 0 || requested, now)]
  }

  /** `updateAddress`'s writes for the row at `i`. */
  function UpdateRows(rows: seq<Address>, i: nat, user: int, req: AddressRequest): (r: seq<Address>)
    requires i < |rows| && ValidateAddress(req).None?
    ensures |r| == |rows|
    ensures r[i].id == rows[i].id && r[i].userId == rows[i].userId && r[i].createdAt == rows[i].createdAt
    ensures r[i] == Updated(rows[i], req)
    ensures r[i].isDefault == req.isDefault.GetOr(rows[i].isDefault)
    ensures !(req.isDefault == Some(true) && !rows[i].isDefault) ==>
      forall j :: 0 <= j < |rows| && j != i ==> r[j] == rows[j]
    ensures req.isDefault == Some(true) && !rows[i].isDefault ==>
      forall j :: 0 <= j < |rows| && j != i ==>
        r[j] == if rows[j].userId == user then rows[j].(isDefault := false) else rows[j]
  {
    var before := if req.isDefault == Some(true) && !rows[i].isDefault then UnsetDefaults(rows, user) else rows;
    before[i := Updated(before[i], req)]
  }

  /** `deleteAddress`'s writes for the row at `i`: the row goes, and when it
      was the default the latest remaining row of the user is flagged. */
  function DeleteRows(rows: seq<Address>, i: nat, user: int): (r: seq<Address>)
    requires i < |rows|
    ensures |r| == |rows| - 1
    ensures forall j :: 0 <= j < |r| ==>
      var kept := if j < i then rows[j] else rows[j + 1];
      r[j] == kept || (rows[i].isDefault && kept.userId == user && r[j] == kept.(isDefault := true))
    ensures !rows[i].isDefault || LatestOf(rows[..i] + rows[i + 1..], user).None? ==>
      r == rows[..i] + rows[i + 1..]
    ensures rows[i].isDefault && LatestOf(rows[..i] + rows[i + 1..], user).Some? ==>
      var rest, j := rows[..i] + rows[i + 1..], LatestOf(rows[..i] + rows[i + 1..], user).value;
      r == rest[j := rest[j].(isDefault := true)]
  {
    var rest := rows[..i] + rows[i + 1..];
    if rows[i].isDefault then
      match LatestOf(rest, user)
      case None => rest
      case Some(j) => rest[j := rest[j].(isDefault := true)]
    else rest
  }

  /** `setDefaultAddress`'s writes for the row at `i`, with the flag written
      unconditionally. */
  function SetDefaultRows(rows: seq<Address>, i: nat, user: int): (r: seq<Address>)
    requires i < |rows|
    ensures |r| == |rows| && r[i] == rows[i].(isDefault := true)
    ensures forall j :: 0 <= j < |rows| && j != i ==>
      r[j] == if rows[j].userId == user then rows[j].(isDefault := false) else rows[j]
  {
    var unset := UnsetDefaults(rows, user);
    unset[i := unset[i].(isDefault := true)]
  }

  /** `setDefaultAddress` as written: the instance was loaded before the bulk
      unset, so when it was already the default, `address.is_default = true`
      is no change to it and `save()` writes nothing. */
  function SetDefaultRowsAsWritten(rows: seq<Address>, i: nat, user: int): (r: seq<Address>)
    requires i < |rows|
    ensures |r| == |rows|
    ensures rows[i].isDefault ==> CountDefaults(r, user) == 0
    ensures !rows[i].isDefault ==> r == SetDefaultRows(rows, i, user)
  {
    CountAfterUnset(rows, user, user);
    var loaded := rows[i];
    var unset := UnsetDefaults(rows, user);
    if loaded.isDefault then unset else unset[i := unset[i].(isDefault := true)]
  }

  ghost predicate AtMostOneDefault(rows: seq<Address>) {
    forall u :: CountDefaults(rows, u) <= 1
  }

  /** Creating keeps at most one default per user, makes the first address
      of a user the default, and makes the new address the only default
      when the request asks for it. */
  lemma CreateKeepsOneDefault(rows: seq<Address>, id: int, user: int, req: AddressRequest, now: int)
    requires ValidateAddress(req).None? && AtMostOneDefault(rows)
    ensures AtMostOneDefault(CreateRows(rows, id, user, req, now))
    ensures RowsOf(rows, user) == [] ==> CreateRows(rows, id, user, req, now)[|rows|].isDefault
    ensures req.isDefault == Some(true) ==>
      CreateRows(rows, id, user, req, now)[|rows|].isDefault && CountDefaults(CreateRows(rows, id, user, req, now), user) == 1
    ensures req.isDefault != Some(true) && RowsOf(rows, user) != [] ==>
      !CreateRows(rows, id, user, req, now)[|rows|].isDefault
  {
    var requested := req.isDefault == Some(true);
    var before := if requested then UnsetDefaults(rows, user) else rows;
    var x := NewAddress(id, user, req, |RowsOf(before, user)| == 0 || requested, now);
    assert CreateRows(rows, id, user, req, now) == before + [x];
    forall u ensures CountDefaults(before + [x], u) <= 1 && (requested && u == user ==> CountDefaults(before + [x], u) == 1) {
      CountConcat(before, [x], u);
      if requested {
        CountAfterUnset(rows, user, u);
      } else if u == user && x.isDefault {
        assert RowsOf(rows, user) == [];
        CountWithoutRows(rows, user);
      }
    }
    if requested {
      RowsOfUnset(rows, user, user + 1);
      assert |UnsetDefaults(rows, user)| == |rows|;
    }
  }

  /** Updating keeps at most one default per user. */
  lemma UpdateKeepsOneDefault(rows: seq<Address>, i: nat, user: int, req: AddressRequest)
    requires i < |rows| && rows[i].userId == user && ValidateAddress(req).None? && AtMostOneDefault(rows)
    ensures AtMostOneDefault(UpdateRows(rows, i, user, req))
  {
    var unsetFirst := req.isDefault == Some(true) && !rows[i].isDefault;
    var before := if unsetFirst then UnsetDefaults(rows, user) else rows;
    var x := Updated(before[i], req);
    var after := before[i := x];
    forall u ensures CountDefaults(after, u) <= 1 {
      CountUpdate(before, i, x, u);
      if unsetFirst {
        CountAfterUnset(rows, user, u);
      }
    }
  }

  /** Deleting keeps at most one default per user; deleting the default
      leaves the latest remaining address of the user as the default. */
  lemma DeleteKeepsOneDefault(rows: seq<Address>, i: nat, user: int)
    requires i < |rows| && rows[i].userId == user && AtMostOneDefault(rows)
    ensures AtMostOneDefault(DeleteRows(rows, i, user))
    ensures rows[i].isDefault && LatestOf(rows[..i] + rows[i + 1..], user).Some? ==>
      CountDefaults(DeleteRows(rows, i, user), user) == 1
  {
    var rest := rows[..i] + rows[i + 1..];
    forall u ensures CountDefaults(rest, u) <= 1 && (u == user && rows[i].isDefault ==> CountDefaults(rest, u) == 0) {
      CountRemove(rows, i, u);
    }
    if rows[i].isDefault {
      var j := LatestOf(rest, user);
      if j.Some? {
        var x := rest[j.value].(isDefault := true);
        var after := rest[j.value := x];
        assert CountDefaults(rest, user) == 0;
        CountAtLeastOne(rest, j.value, user);
        forall u ensures CountDefaults(after, u) <= 1 && (u == user ==> CountDefaults(after, u) == 1) {
          CountUpdate(rest, j.value, x, u);
        }
      }
    }
  }

  /** Updating a row never brings in an id that was not there before. */
  lemma UpdateKeepsIdsBelow(rows: seq<Address>, i: nat, user: int, req: AddressRequest, n: int)
    requires i < |rows| && ValidateAddress(req).None? && forall a :: a in rows ==> a.id < n
    ensures forall a :: a in UpdateRows(rows, i, user, req) ==> a.id < n
  {
    var r := UpdateRows(rows, i, user, req);
    forall a | a in r ensures a.id < n {
      var j :| 0 <= j < |r| && r[j] == a;
      assert rows[j] in rows;
    }
  }

  /** Deleting a row never brings in an id that was not there before. */
  lemma DeleteKeepsIdsBelow(rows: seq<Address>, i: nat, user: int, n: int)
    requires i < |rows| && forall a :: a in rows ==> a.id < n
    ensures forall a :: a in DeleteRows(rows, i, user) ==> a.id < n
  {
    var r := DeleteRows(rows, i, user);
    forall a | a in r ensures a.id < n {
      var j :| 0 <= j < |r| && r[j] == a;
      assert (if j < i then rows[j] else rows[j + 1]) in rows;
    }
  }

  /** Setting the default leaves the target as the user's only default. */
  lemma SetDefaultMakesOnlyDefault(rows: seq<Address>, i: nat, user: int)
    requires i < |rows| && rows[i].userId == user && AtMostOneDefault(rows)
    ensures AtMostOneDefault(SetDefaultRows(rows, i, user))
    ensures SetDefaultRows(rows, i, user)[i].isDefault && CountDefaults(SetDefaultRows(rows, i, user), user) == 1
  {
    var unset := UnsetDefaults(rows, user);
    var x := unset[i].(isDefault := true);
    var after := unset[i := x];
    forall u ensures CountDefaults(after, u) <= 1 && (u == user ==> CountDefaults(after, u) == 1) {
      CountAfterUnset(rows, user, u);
      CountUpdate(unset, i, x, u);
    }
  }

  /** As written, setting the address that is already the default leaves
      the user with no default at all. */
  lemma SetDefaultAsWrittenLosesDefault()
    ensures var rows := [Address(1, 7, "A", "0123", "Street 1", Home, true, 0)];
            CountDefaults(SetDefaultRowsAsWritten(rows, 0, 7), 7) == 0
            && CountDefaults(SetDefaultRows(rows, 0, 7), 7) == 1
  {
    var rows := [Address(1, 7, "A", "0123", "Street 1", Home, true, 0)];
    var unset := UnsetDefaults(rows, 7);
    assert unset == [rows[0].(isDefault := false)];
    assert SetDefaultRowsAsWritten(rows, 0, 7) == unset;
    assert SetDefaultRows(rows, 0, 7) == [rows[0]];
  }

  // ---------------------------------------------------------------------
  // `getAddresses`: the user's rows, default first, then newest first.

  /** `a` may be listed before `b` under `order: [['is_default', 'DESC'], ['created_at', 'DESC']]`. */
  predicate ListedBefore(a: Address, b: Address) {
    (a.isDefault && !b.isDefault) || (a.isDefault == b.isDefault && a.createdAt >= b.createdAt)
  }

  predicate SortedForListing(s: seq<Address>) {
    forall i, j :: 0 <= i < j < |s| ==> ListedBefore(s[i], s[j])
  }

  /** Puts `x` into a sorted listing, before the first row it may precede. */
  function Insert(x: Address, s: seq<Address>): (r: seq<Address>)
    requires SortedForListing(s)
    ensures multiset(r) == multiset(s) + multiset{x}
    ensures SortedForListing(r)
  {
    if s == [] then [x]
    else if ListedBefore(x, s[0]) then
      InsertFront(x, s);
      [x] + s
    else
      var tail := Insert(x, s[1..]);
      InsertBehind(x, s, tail);
      assert s == [s[0]] + s[1..];
      [s[0]] + tail
  }

  lemma SortedCons(y: Address, t: seq<Address>)
    requires SortedForListing(t)
    requires forall z :: z in t ==> ListedBefore(y, z)
    ensures SortedForListing([y] + t)
  {
    var r := [y] + t;
    forall i, j | 0 <= i < j < |r| ensures ListedBefore(r[i], r[j]) {
      assert r[j] == t[j - 1];
      if i > 0 {
        assert r[i] == t[i - 1];
      }
    }
  }

  lemma InsertFront(x: Address, s: seq<Address>)
    requires s != [] && SortedForListing(s) && ListedBefore(x, s[0])
    ensures SortedForListing([x] + s)
  {
    forall z | z in s ensures ListedBefore(x, z) {
      var m :| 0 <= m < |s| && s[m] == z;
      assert m == 0 || ListedBefore(s[0], s[m]);
    }
    SortedCons(x, s);
  }

  lemma InsertBehind(x: Address, s: seq<Address>, tail: seq<Address>)
    requires s != [] && SortedForListing(s) && !ListedBefore(x, s[0])
    requires multiset(tail) == multiset(s[1..]) + multiset{x} && SortedForListing(tail)
    ensures SortedForListing([s[0]] + tail)
  {
    forall z | z in tail ensures ListedBefore(s[0], z) {
      assert z in multiset(tail);
      if z != x {
        assert z in multiset(s[1..]);
        var m :| 0 <= m < |s[1..]| && s[1..][m] == z;
        assert s[m + 1] == z;
      }
    }
    SortedCons(s[0], tail);
  }

  function SortForListing(s: seq<Address>): (r: seq<Address>)
    ensures multiset(r) == multiset(s) && SortedForListing(r)
  {
    if s == [] then []
    else
      assert s == [s[0]] + s[1..];
      Insert(s[0], SortForListing(s[1..]))
  }

  /** `getAddresses`: exactly the caller's rows, default first and then by
      newest creation time. */
  function ListAddresses(rows: seq<Address>, user: int): (r: seq<Address>)
    ensures forall a :: a in r <==> a in rows && a.userId == user
    ensures multiset(r) == multiset(RowsOf(rows, user))
    ensures SortedForListing(r)
    ensures AtMostOneDefault(rows) ==> forall k :: 0 < k < |r| ==> !r[k].isDefault
  {
    var r := SortForListing(RowsOf(rows, user));
    assert forall a :: a in r <==> a in multiset(RowsOf(rows, user));
    ListingDefaultsFirst(rows, user, r);
    r
  }

  /** In the listing of the user's rows, only the first can be a default
      when the table holds at most one default per user. */
  lemma ListingDefaultsFirst(rows: seq<Address>, user: int, r: seq<Address>)
    requires r == SortForListing(RowsOf(rows, user))
    ensures AtMostOneDefault(rows) ==> forall k :: 0 < k < |r| ==> !r[k].isDefault
  {
    if AtMostOneDefault(rows) {
      OwnRowsCount(rows, user);
      SortKeepsCount(RowsOf(rows, user), user);
      assert forall a :: a in r ==> a in multiset(RowsOf(rows, user));
      SortedDefaultsFirst(r, user);
    }
  }

  /** A sorted listing of one user's rows with at most one default has it first. */
  lemma SortedDefaultsFirst(s: seq<Address>, user: int)
    requires SortedForListing(s) && CountDefaults(s, user) <= 1
    requires forall a :: a in s ==> a.userId == user
    ensures forall k :: 0 < k < |s| ==> !s[k].isDefault
  {
    forall k | 0 < k < |s| ensures s[k].isDefault ==> CountDefaults(s, user) >= 2 {
      assert ListedBefore(s[0], s[k]);
      assert s[0] in s && s[k] in s;
      CountAtLeastOne(s[1..], k - 1, user);
    }
  }

  /** A row's flag is part of the count. */
  lemma {:induction false} CountAtLeastOne(s: seq<Address>, i: nat, user: int)
    requires i < |s|
    ensures CountDefaults(s, user) >= DefaultFlag(s[i], user)
  {
    if i > 0 {
      CountAtLeastOne(s[1..], i - 1, user);
    }
  }

  /** The user's defaults are counted the same in the table and in their own rows. */
  lemma {:induction false} OwnRowsCount(rows: seq<Address>, user: int)
    ensures CountDefaults(RowsOf(rows, user), user) == CountDefaults(rows, user)
  {
    if rows != [] {
      OwnRowsCount(rows[1..], user);
      var head := if rows[0].userId == user then [rows[0]] else [];
      CountConcat(head, RowsOf(rows[1..], user), user);
    }
  }

  /** Sorting for the listing neither adds nor drops a default. */
  lemma {:induction false} InsertKeepsCount(x: Address, s: seq<Address>, user: int)
    requires SortedForListing(s)
    ensures CountDefaults(Insert(x, s), user) == CountDefaults(s, user) + DefaultFlag(x, user)
  {
    if s != [] && !ListedBefore(x, s[0]) {
      InsertKeepsCount(x, s[1..], user);
      assert ([s[0]] + Insert(x, s[1..]))[1..] == Insert(x, s[1..]);
    }
  }

  lemma {:induction false} SortKeepsCount(s: seq<Address>, user: int)
    ensures CountDefaults(SortForListing(s), user) == CountDefaults(s, user)
  {
    if s != [] {
      SortKeepsCount(s[1..], user);
      InsertKeepsCount(s[0], SortForListing(s[1..]), user);
    }
  }

  // ---------------------------------------------------------------------
  // The table.

  class AddressBook {
    var rows: seq<Address>
    var nextId: int

    ghost predicate Valid()
      reads this
    {
      && AtMostOneDefault(rows)
      && (forall a :: a in rows ==> a.id < nextId)
    }

    constructor ()
      ensures Valid() && rows == [] && nextId == 1
    {
      rows := [];
      nextId := 1;
    }

    /** `createAddress` for `user` at instant `now`. */
    method CreateAddress(user: int, req: AddressRequest, now: int) returns (status: Status, id: int)
      requires Valid()
      modifies this
      ensures Valid()
      ensures ValidateAddress(req).Some? ==> status == BadRequest400 && unchanged(this)
      ensures ValidateAddress(req).None? ==>
        && status == Created201 && id == old(nextId) && nextId == id + 1
        && rows == CreateRows(old(rows), id, user, req, now)
      ensures forall u :: u != user ==> RowsOf(rows, u) == RowsOf(old(rows), u)
    {
      id := nextId;
      if ValidateAddress(req).Some? {
        return BadRequest400, id;
      }
      CreateKeepsOneDefault(rows, id, user, req, now);
      var requested := req.isDefault == Some(true);
      if requested {
        forall u | u != user ensures RowsOf(UnsetDefaults(rows, user), u) == RowsOf(rows, u) {
          RowsOfUnset(rows, user, u);
        }
        rows := UnsetDefaults(rows, user);
      }
      var count := |RowsOf(rows, user)|;
      var x := NewAddress(id, user, req, count == 0 || requested, now);
      forall u | u != user ensures RowsOf(rows + [x], u) == RowsOf(rows, u) {
        RowsOfConcat(rows, [x], u);
      }
      rows := rows + [x];
      nextId := nextId + 1;
      status := Created201;
    }

    /** `updateAddress`: validation, then the caller's row with that id. */
    method UpdateAddress(user: int, id: int, req: AddressRequest) returns (status: Status)
      requires Valid()
      modifies this
      ensures Valid()
      ensures ValidateAddress(req).Some? ==> status == BadRequest400 && unchanged(this)
      ensures ValidateAddress(req).None? && FindOwned(old(rows), id, user).None? ==>
        status == NotFound404 && unchanged(this)
      ensures ValidateAddress(req).None? && FindOwned(old(rows), id, user).Some? ==>
        status == Ok200 && nextId == old(nextId)
        && rows == UpdateRows(old(rows), FindOwned(old(rows), id, user).value, user, req)
      ensures forall u :: u != user ==> RowsOf(rows, u) == RowsOf(old(rows), u)
    {
      if ValidateAddress(req).Some? {
        return BadRequest400;
      }
      var found := FindOwned(rows, id, user);
      if found.None? {
        return NotFound404;
      }
      var i := found.value;
      UpdateKeepsOneDefault(rows, i, user, req);
      UpdateKeepsIdsBelow(rows, i, user, req, nextId);
      if req.isDefault == Some(true) && !rows[i].isDefault {
        forall u | u != user ensures RowsOf(UnsetDefaults(rows, user), u) == RowsOf(rows, u) {
          RowsOfUnset(rows, user, u);
        }
        rows := UnsetDefaults(rows, user);
      }
      var x := Updated(rows[i], req);
      forall u | u != user ensures RowsOf(rows[i := x], u) == RowsOf(rows, u) {
        RowsOfUpdate(rows, i, x, u);
      }
      rows := rows[i := x];
      status := Ok200;
    }

    /** `deleteAddress`: the caller's row with that id goes; when it was the
        default, the latest remaining row of the caller becomes the default. */
    method DeleteAddress(user: int, id: int) returns (status: Status)
      requires Valid()
      modifies this
      ensures Valid()
      ensures FindOwned(old(rows), id, user).None? ==> status == NotFound404 && unchanged(this)
      ensures FindOwned(old(rows), id, user).Some? ==>
        status == Ok200 && nextId == old(nextId)
        && rows == DeleteRows(old(rows), FindOwned(old(rows), id, user).value, user)
      ensures forall u :: u != user ==> RowsOf(rows, u) == RowsOf(old(rows), u)
    {
      var found := FindOwned(rows, id, user);
      if found.None? {
        return NotFound404;
      }
      var i := found.value;
      DeleteKeepsOneDefault(rows, i, user);
      DeleteKeepsIdsBelow(rows, i, user, nextId);
      var wasDefault := rows[i].isDefault;
      var rest := rows[..i] + rows[i + 1..];
      forall u | u != user ensures RowsOf(rest, u) == RowsOf(rows, u) {
        RowsOfRemove(rows, i, u);
      }
      rows := rest;
      if wasDefault {
        var latest := LatestOf(rows, user);
        if latest.Some? {
          var j := latest.value;
          var x := rows[j].(isDefault := true);
          forall u | u != user ensures RowsOf(rows[j := x], u) == RowsOf(rows, u) {
            RowsOfUpdate(rows, j, x, u);
          }
          rows := rows[j := x];
        }
      }
      status := Ok200;
    }

    /** `setDefaultAddress`: the caller's row with that id becomes their only default. */
    method SetDefaultAddress(user: int, id: int) returns (status: Status)
      requires Valid()
      modifies this
      ensures Valid()
      ensures FindOwned(old(rows), id, user).None? ==> status == NotFound404 && unchanged(this)
      ensures FindOwned(old(rows), id, user).Some? ==>
        status == Ok200 && nextId == old(nextId)
        && rows == SetDefaultRows(old(rows), FindOwned(old(rows), id, user).value, user)
      ensures forall u :: u != user ==> RowsOf(rows, u) == RowsOf(old(rows), u)
    {
      var found := FindOwned(rows, id, user);
      if found.None? {
        return NotFound404;
      }
      var i := found.value;
      SetDefaultMakesOnlyDefault(rows, i, user);
      forall u | u != user ensures RowsOf(UnsetDefaults(rows, user), u) == RowsOf(rows, u) {
        RowsOfUnset(rows, user, u);
      }
      rows := UnsetDefaults(rows, user);
      var x := rows[i].(isDefault := true);
      forall u | u != user ensures RowsOf(rows[i := x], u) == RowsOf(rows, u) {
        RowsOfUpdate(rows, i, x, u);
      }
      rows := rows[i := x];
      status := Ok200;
    }

    /** `getAddresses` for `user`; reads the table only. */
    method GetAddresses(user: int) returns (listing: seq<Address>)
      ensures multiset(listing) == multiset(RowsOf(rows, user)) && SortedForListing(listing)
    {
      listing := ListAddresses(rows, user);
    }
  }
}
