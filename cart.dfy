/** controllers/cartController.js: the cart-line table and the four
    operations that change it. A line is identified by its row id and, for
    merging, by its (user, product, variant-or-null) key; every operation is
    filtered by the caller's user id. */
module Carts {
  import opened Wrappers

  datatype CartLine = CartLine(id: int, userId: int, productId: int, variantId: Option<int>, quantity: real)

  datatype LineKey = LineKey(userId: int, productId: int, variantId: Option<int>)

  function Key(l: CartLine): LineKey {
    LineKey(l.userId, l.productId, l.variantId)
  }

  /** `product_variant_id` in the request body: left out, `null`, or a number. */
  datatype VariantField = NoVariant | NullVariant | VariantNumber(n: int)

  /** `product_variant_id || null`: absent, `null` and the falsy 0 all mean
      "no variant". */
  function NormalizeVariant(v: VariantField): (r: Option<int>)
    ensures r.None? <==> v.NoVariant? || v.NullVariant? || v == VariantNumber(0)
    ensures r.Some? ==> v == VariantNumber(r.value)
  {
    match v
    case VariantNumber(n) => if n == 0 then None else Some(n)
    case _ => None
  }

  /** `req.body` of `addToCart`; numbers arrive as numbers. */
  datatype AddRequest = AddRequest(productId: Option<int>, variant: VariantField, quantity: Option<real>)

  datatype CartField = ProductIdField | QuantityField

  predicate IsInteger(q: real) {
    q == q.Floor as real
  }

  /** What a request that passes `cartItemSchema` carries. */
  datatype CartItemData = CartItemData(productId: int, variantId: Option<int>, quantity: real)

  /** `cartItemSchema.validate(req.body)`: `product_id` is required and
      `quantity` must be an integer of at least 1. The variant id is taken
      through `product_variant_id || null`. */
  function ValidateCartItem(req: AddRequest): (r: Result<CartItemData, CartField>)
    ensures r.Success? <==> req.productId.Some? && req.quantity.Some? && IsInteger(req.quantity.value) && req.quantity.value >= 1.0
    ensures r.Failure? ==> (r.error == ProductIdField <==> req.productId.None?)
    ensures r.Success? ==>
      r.value == CartItemData(req.productId.value, NormalizeVariant(req.variant), req.quantity.value)
  {
    if req.productId.None? then Failure(ProductIdField)
    else if req.quantity.None? || !IsInteger(req.quantity.value) || req.quantity.value < 1.0 then Failure(QuantityField)
    else Success(CartItemData(req.productId.value, NormalizeVariant(req.variant), req.quantity.value))
  }

  /** `CartItem.findOne({ where: key })`: the first line with that key. */
  function FindLine(lines: seq<CartLine>, key: LineKey): (r: Option<nat>)
    ensures r.None? <==> forall i :: 0 <= i < |lines| ==> Key(lines[i]) != key
    ensures r.Some? ==> r.value < |lines| && Key(lines[r.value]) == key
    ensures r.Some? ==> forall j :: 0 <= j < r.value ==> Key(lines[j]) != key
  {
    if lines == [] then None
    else if Key(lines[0]) == key then Some(0)
    else match FindLine(lines[1..], key)
      case None => None
      case Some(i) => Some(i + 1)
  }

  /** `findOne({ where: { id, user_id } })`: the first line with that id owned by `user`. */
  function FindOwned(lines: seq<CartLine>, id: int, user: int): (r: Option<nat>)
    ensures r.None? <==> forall i :: 0 <= i < |lines| ==> !(lines[i].id == id && lines[i].userId == user)
    ensures r.Some? ==> r.value < |lines| && lines[r.value].id == id && lines[r.value].userId == user
  {
    if lines == [] then None
    else if lines[0].id == id && lines[0].userId == user then Some(0)
    else match FindOwned(lines[1..], id, user)
      case None => None
      case Some(i) => Some(i + 1)
  }

  /** The merge-or-create step of `addToCart`: an existing line with the key
      grows by `q`, otherwise one new line with id `nextId` is added; the new
      line stores the same normalized variant id the lookup used. */
  function AddLines(lines: seq<CartLine>, nextId: int, user: int, productId: int, variantId: Option<int>, q: real): (r: seq<CartLine>)
    ensures FindLine(lines, LineKey(user, productId, variantId)).Some? ==>
      var i := FindLine(lines, LineKey(user, productId, variantId)).value;
      |r| == |lines| && r[i] == lines[i].(quantity := lines[i].quantity + q)
      && forall j :: 0 <= j < |lines| && j != i ==> r[j] == lines[j]
    ensures FindLine(lines, LineKey(user, productId, variantId)).None? ==>
      |r| == |lines| + 1 && r[..|lines|] == lines && r[|lines|] == CartLine(nextId, user, productId, variantId, q)
  {
    match FindLine(lines, LineKey(user, productId, variantId))
    case Some(i) => lines[i := lines[i].(quantity := lines[i].quantity + q)]
    case None => lines + [CartLine(nextId, user, productId, variantId, q)]
  }

  /** The lines owned by `user`, in table order. */
  function LinesOf(lines: seq<CartLine>, user: int): (r: seq<CartLine>)
    ensures forall l :: l in r <==> l in lines && l.userId == user
    ensures |r| <= |lines|
  {
    if lines == [] then []
    else (if lines[0].userId == user then [lines[0]] else []) + LinesOf(lines[1..], user)
  }

  /** `destroy({ where: { id, user_id } })`: the lines that survive. */
  function WithoutLine(lines: seq<CartLine>, id: int, user: int): (r: seq<CartLine>)
    ensures forall l :: l in r <==> l in lines && !(l.id == id && l.userId == user)
    ensures |r| <= |lines|
  {
    if lines == [] then []
    else (if lines[0].id == id && lines[0].userId == user then [] else [lines[0]]) + WithoutLine(lines[1..], id, user)
  }

  /** `destroy({ where: { user_id } })`: the lines that survive. */
  function WithoutUser(lines: seq<CartLine>, user: int): (r: seq<CartLine>)
    ensures forall l :: l in r <==> l in lines && l.userId != user
    ensures |r| <= |lines|
  {
    if lines == [] then []
    else (if lines[0].userId == user then [] else [lines[0]]) + WithoutUser(lines[1..], user)
  }

  /** No two lines share a row id or a (user, product, variant) key. */
  predicate UniqueLines(lines: seq<CartLine>) {
    lines == [] ||
    ((forall l :: l in lines[1..] ==> l.id != lines[0].id && Key(l) != Key(lines[0])) && UniqueLines(lines[1..]))
  }

  // ---------------------------------------------------------------------
  // Lemmas about the table functions.

  /** Changing one line that neither was nor becomes `u`'s leaves `u`'s lines as they were. */
  lemma {:induction false} LinesOfUpdate(lines: seq<CartLine>, i: nat, x: CartLine, u: int)
    requires i < |lines| && lines[i].userId != u && x.userId != u
    ensures LinesOf(lines[i := x], u) == LinesOf(lines, u)
  {
    if i > 0 {
      assert lines[i := x][1..] == lines[1..][i - 1 := x];
      LinesOfUpdate(lines[1..], i - 1, x, u);
    } else {
      assert lines[i := x][1..] == lines[1..];
    }
  }

  /** Appending a line adds it to its owner's lines and to no one else's. */
  lemma {:induction false} LinesOfAppend(lines: seq<CartLine>, x: CartLine, u: int)
    ensures LinesOf(lines + [x], u) == LinesOf(lines, u) + (if x.userId == u then [x] else [])
  {
    if lines != [] {
      assert (lines + [x])[1..] == lines[1..] + [x];
      LinesOfAppend(lines[1..], x, u);
    }
  }

  /** Removing `user`'s line leaves every other user's lines as they were. */
  lemma {:induction false} LinesOfWithoutLine(lines: seq<CartLine>, id: int, user: int, u: int)
    requires u != user
    ensures LinesOf(WithoutLine(lines, id, user), u) == LinesOf(lines, u)
  {
    if lines != [] {
      LinesOfWithoutLine(lines[1..], id, user, u);
      var head := if lines[0].id == id && lines[0].userId == user then [] else [lines[0]];
      LinesOfConcat(head, WithoutLine(lines[1..], id, user), u);
      assert LinesOf(head, u) == (if lines[0].userId == u then [lines[0]] else []);
    }
  }

  /** Clearing `user`'s cart empties it and leaves every other cart as it was. */
  lemma {:induction false} LinesOfWithoutUser(lines: seq<CartLine>, user: int, u: int)
    ensures LinesOf(WithoutUser(lines, user), u) == if u == user then [] else LinesOf(lines, u)
  {
    if lines != [] {
      LinesOfWithoutUser(lines[1..], user, u);
      var head := if lines[0].userId == user then [] else [lines[0]];
      LinesOfConcat(head, WithoutUser(lines[1..], user), u);
      assert LinesOf(head, u) == (if lines[0].userId == u && u != user then [lines[0]] else []);
    }
  }

  lemma {:induction false} LinesOfConcat(a: seq<CartLine>, b: seq<CartLine>, u: int)
    ensures LinesOf(a + b, u) == LinesOf(a, u) + LinesOf(b, u)
  {
    if a != [] {
      assert (a + b)[0] == a[0];
      assert (a + b)[1..] == a[1..] + b;
      LinesOfConcat(a[1..], b, u);
      var head := if a[0].userId == u then [a[0]] else [];
      assert LinesOf(a + b, u) == head + LinesOf(a[1..] + b, u);
      assert LinesOf(a, u) == head + LinesOf(a[1..], u);
    } else {
      assert a + b == b;
    }
  }

  /** The filters keep lines unique: every line they keep was there before. */
  lemma {:induction false} UniqueWithoutLine(lines: seq<CartLine>, id: int, user: int)
    requires UniqueLines(lines)
    ensures UniqueLines(WithoutLine(lines, id, user))
  {
    if lines != [] {
      UniqueWithoutLine(lines[1..], id, user);
      var rest := WithoutLine(lines[1..], id, user);
      if !(lines[0].id == id && lines[0].userId == user) {
        var r := [lines[0]] + rest;
        assert WithoutLine(lines, id, user) == r;
        assert r[1..] == rest;
        assert forall l :: l in rest ==> l in lines[1..];
      } else {
        assert WithoutLine(lines, id, user) == [] + rest;
        assert [] + rest == rest;
      }
    }
  }

  lemma {:induction false} UniqueWithoutUser(lines: seq<CartLine>, user: int)
    requires UniqueLines(lines)
    ensures UniqueLines(WithoutUser(lines, user))
  {
    if lines != [] {
      UniqueWithoutUser(lines[1..], user);
      var rest := WithoutUser(lines[1..], user);
      if lines[0].userId != user {
        var r := [lines[0]] + rest;
        assert WithoutUser(lines, user) == r;
        assert r[1..] == rest;
        assert forall l :: l in rest ==> l in lines[1..];
      } else {
        assert WithoutUser(lines, user) == [] + rest;
        assert [] + rest == rest;
      }
    }
  }

  /** Changing a line's quantity keeps ids and keys unique. */
  lemma {:induction false} UniqueQuantityChange(lines: seq<CartLine>, i: nat, q: real)
    requires UniqueLines(lines) && i < |lines|
    ensures UniqueLines(lines[i := lines[i].(quantity := q)])
  {
    var x := lines[i].(quantity := q);
    var r := lines[i := x];
    if i == 0 {
      assert r[1..] == lines[1..];
    } else {
      assert r[1..] == lines[1..][i - 1 := x];
      UniqueQuantityChange(lines[1..], i - 1, q);
      assert forall l :: l in r[1..] ==> l in lines[1..] || l == x;
      assert x.id == lines[i].id && Key(x) == Key(lines[i]) && lines[i] in lines[1..];
    }
  }

  /** Appending a line with a fresh id and a fresh key keeps lines unique. */
  lemma {:induction false} UniqueAppend(lines: seq<CartLine>, x: CartLine)
    requires UniqueLines(lines)
    requires forall l :: l in lines ==> l.id != x.id && Key(l) != Key(x)
    ensures UniqueLines(lines + [x])
  {
    if lines != [] {
      var r := lines + [x];
      assert r[1..] == lines[1..] + [x];
      UniqueAppend(lines[1..], x);
    }
  }

  /** Merge-or-create never duplicates an id or a key, given that `nextId`
      is above every id in use. */
  lemma AddLinesKeepsUnique(lines: seq<CartLine>, nextId: int, user: int, productId: int, variantId: Option<int>, q: real)
    requires UniqueLines(lines)
    requires forall l :: l in lines ==> l.id < nextId
    ensures UniqueLines(AddLines(lines, nextId, user, productId, variantId, q))
  {
    var found := FindLine(lines, LineKey(user, productId, variantId));
    if found.Some? {
      var i := found.value;
      var x := lines[i].(quantity := lines[i].quantity + q);
      assert AddLines(lines, nextId, user, productId, variantId, q) == lines[i := x];
      UniqueQuantityChange(lines, i, x.quantity);
    } else {
      var x := CartLine(nextId, user, productId, variantId, q);
      assert AddLines(lines, nextId, user, productId, variantId, q) == lines + [x];
      UniqueCreate(lines, x);
    }
  }

  lemma UniqueCreate(lines: seq<CartLine>, x: CartLine)
    requires UniqueLines(lines)
    requires forall l :: l in lines ==> l.id < x.id
    requires FindLine(lines, Key(x)).None?
    ensures UniqueLines(lines + [x])
  {
    assert forall l :: l in lines ==> Key(l) != Key(x);
    UniqueAppend(lines, x);
  }

  /** Merge-or-create touches no other user's lines. */
  lemma AddLinesOthersUntouched(lines: seq<CartLine>, nextId: int, user: int, productId: int, variantId: Option<int>, q: real, u: int)
    requires u != user
    ensures LinesOf(AddLines(lines, nextId, user, productId, variantId, q), u) == LinesOf(lines, u)
  {
    match FindLine(lines, LineKey(user, productId, variantId))
    case Some(i) =>
      LinesOfUpdate(lines, i, lines[i].(quantity := lines[i].quantity + q), u);
    case None =>
      LinesOfAppend(lines, CartLine(nextId, user, productId, variantId, q), u);
  }

  // ---------------------------------------------------------------------
  // `addToCart` as written: the lookup normalizes the variant id, the
  // insert stores it raw.

  /** The variant id `CartItem.create` stores: the request's value, `null` when left out. */
  function StoredVariantAsWritten(v: VariantField): (r: Option<int>)
    ensures v.VariantNumber? <==> r.Some?
    ensures v.VariantNumber? ==> r == Some(v.n)
  {
    match v
    case VariantNumber(n) => Some(n)
    case _ => None
  }

  function AddLinesAsWritten(lines: seq<CartLine>, nextId: int, user: int, productId: int, v: VariantField, q: real): (r: seq<CartLine>)
    ensures FindLine(lines, LineKey(user, productId, NormalizeVariant(v))).Some? ==>
      var i := FindLine(lines, LineKey(user, productId, NormalizeVariant(v))).value;
      |r| == |lines| && r[i] == lines[i].(quantity := lines[i].quantity + q)
      && forall j :: 0 <= j < |lines| && j != i ==> r[j] == lines[j]
    ensures FindLine(lines, LineKey(user, productId, NormalizeVariant(v))).None? ==>
      |r| == |lines| + 1 && r[..|lines|] == lines
      && r[|lines|] == CartLine(nextId, user, productId, StoredVariantAsWritten(v), q)
  {
    match FindLine(lines, LineKey(user, productId, NormalizeVariant(v)))
    case Some(i) => lines[i := lines[i].(quantity := lines[i].quantity + q)]
    case None => lines + [CartLine(nextId, user, productId, StoredVariantAsWritten(v), q)]
  }

  /** Two identical requests with `product_variant_id: 0` make two lines
      with the same key as written: the stored 0 is never found by the
      lookup for `null`. */
  lemma DuplicateLineAsWritten()
    ensures var once := AddLinesAsWritten([], 1, 7, 3, VariantNumber(0), 1.0);
            var twice := AddLinesAsWritten(once, 2, 7, 3, VariantNumber(0), 1.0);
            |twice| == 2 && Key(twice[0]) == Key(twice[1]) && !UniqueLines(twice)
  {
    var once := AddLinesAsWritten([], 1, 7, 3, VariantNumber(0), 1.0);
    assert once == [CartLine(1, 7, 3, Some(0), 1.0)];
    var twice := AddLinesAsWritten(once, 2, 7, 3, VariantNumber(0), 1.0);
    assert Key(once[0]) != LineKey(7, 3, None);
    assert twice == once + [CartLine(2, 7, 3, Some(0), 1.0)];
    assert twice[1] in twice[1..];
  }

  /** With the normalized id stored, the same two requests merge into one line. */
  lemma RepeatedAddMerges()
    ensures var once := AddLines([], 1, 7, 3, NormalizeVariant(VariantNumber(0)), 1.0);
            var twice := AddLines(once, 2, 7, 3, NormalizeVariant(VariantNumber(0)), 1.0);
            twice == [CartLine(1, 7, 3, None, 2.0)]
  {
    var once := AddLines([], 1, 7, 3, None, 1.0);
    assert once == [CartLine(1, 7, 3, None, 1.0)];
    assert FindLine(once, LineKey(7, 3, None)) == Some(0);
  }

  // ---------------------------------------------------------------------
  // The table.

  class Cart {
    var lines: seq<CartLine>
    var nextId: int

    /** Ids and keys are unique, every id was handed out before, and every
        quantity is at least 1. */
    ghost predicate Valid()
      reads this
    {
      && UniqueLines(lines)
      && (forall l :: l in lines ==> l.id < nextId)
      && (forall l :: l in lines ==> l.quantity >= 1.0)
    }

    constructor ()
      ensures Valid() && lines == [] && nextId == 1
    {
      lines := [];
      nextId := 1;
    }

    /** `addToCart` for `user`; `products` are the ids `Product.findByPk` finds. */
    method AddToCart(user: int, req: AddRequest, products: set<int>) returns (status: Status)
      requires Valid()
      modifies this
      ensures Valid()
      ensures ValidateCartItem(req).Failure? ==> status == BadRequest400 && unchanged(this)
      ensures ValidateCartItem(req).Success? && req.productId.value !in products ==>
        status == NotFound404 && unchanged(this)
      ensures ValidateCartItem(req).Success? && req.productId.value in products ==>
        var d := ValidateCartItem(req).value;
        && status == Created201
        && lines == AddLines(old(lines), old(nextId), user, d.productId, d.variantId, d.quantity)
        && nextId == if FindLine(old(lines), LineKey(user, d.productId, d.variantId)).Some? then old(nextId) else old(nextId) + 1
      ensures forall u :: u != user ==> LinesOf(lines, u) == LinesOf(old(lines), u)
    {
      var checked := ValidateCartItem(req);
      if checked.Failure? {
        return BadRequest400;
      }
      var d := checked.value;
      if d.productId !in products {
        return NotFound404;
      }
      AddLinesKeepsUnique(lines, nextId, user, d.productId, d.variantId, d.quantity);
      forall u | u != user
        ensures LinesOf(AddLines(lines, nextId, user, d.productId, d.variantId, d.quantity), u) == LinesOf(lines, u)
      {
        AddLinesOthersUntouched(lines, nextId, user, d.productId, d.variantId, d.quantity, u);
      }
      var found := FindLine(lines, LineKey(user, d.productId, d.variantId));
      lines := AddLines(lines, nextId, user, d.productId, d.variantId, d.quantity);
      if found.None? {
        nextId := nextId + 1;
      }
      status := Created201;
    }

    /** `updateCartItem`: the quantity must be a number of at least 1 (a
        fraction passes); only the caller's line with that id is found. */
    method UpdateCartItem(user: int, id: int, quantity: Option<real>) returns (status: Status)
      requires Valid()
      modifies this
      ensures Valid()
      ensures quantity.None? || quantity.value < 1.0 ==> status == BadRequest400 && unchanged(this)
      ensures quantity.Some? && quantity.value >= 1.0 && FindOwned(old(lines), id, user).None? ==>
        status == NotFound404 && unchanged(this)
      ensures quantity.Some? && quantity.value >= 1.0 && FindOwned(old(lines), id, user).Some? ==>
        var i := FindOwned(old(lines), id, user).value;
        status == Ok200 && nextId == old(nextId) && lines == old(lines)[i := old(lines)[i].(quantity := quantity.value)]
      ensures forall u :: u != user ==> LinesOf(lines, u) == LinesOf(old(lines), u)
    {
      if quantity.None? || quantity.value < 1.0 {
        return BadRequest400;
      }
      var found := FindOwned(lines, id, user);
      if found.None? {
        return NotFound404;
      }
      var i := found.value;
      var x := lines[i].(quantity := quantity.value);
      UniqueQuantityChange(lines, i, quantity.value);
      forall u | u != user
        ensures LinesOf(lines[i := x], u) == LinesOf(lines, u)
      {
        LinesOfUpdate(lines, i, x, u);
      }
      lines := lines[i := x];
      status := Ok200;
    }

    /** `removeFromCart`: destroys the caller's line with that id; 404 when none was destroyed. */
    method RemoveFromCart(user: int, id: int) returns (status: Status)
      requires Valid()
      modifies this
      ensures Valid()
      ensures lines == WithoutLine(old(lines), id, user) && nextId == old(nextId)
      ensures status == (if FindOwned(old(lines), id, user).None? then NotFound404 else Ok200)
      ensures FindOwned(old(lines), id, user).None? ==> lines == old(lines)
      ensures forall u :: u != user ==> LinesOf(lines, u) == LinesOf(old(lines), u)
    {
      var found := FindOwned(lines, id, user);
      UniqueWithoutLine(lines, id, user);
      forall u | u != user
        ensures LinesOf(WithoutLine(lines, id, user), u) == LinesOf(lines, u)
      {
        LinesOfWithoutLine(lines, id, user, u);
      }
      if found.None? {
        WithoutMissingLine(lines, id, user);
      }
      lines := WithoutLine(lines, id, user);
      status := if found.None? then NotFound404 else Ok200;
    }

    /** `clearCart`: destroys every line of the caller and no other. */
    method ClearCart(user: int) returns (status: Status)
      requires Valid()
      modifies this
      ensures Valid()
      ensures status == Ok200 && lines == WithoutUser(old(lines), user) && nextId == old(nextId)
      ensures LinesOf(lines, user) == []
      ensures forall u :: u != user ==> LinesOf(lines, u) == LinesOf(old(lines), u)
    {
      UniqueWithoutUser(lines, user);
      forall u
        ensures LinesOf(WithoutUser(lines, user), u) == if u == user then [] else LinesOf(lines, u)
      {
        LinesOfWithoutUser(lines, user, u);
      }
      lines := WithoutUser(lines, user);
      status := Ok200;
    }
  }

  /** Destroying a line the caller does not own, or that does not exist, changes nothing. */
  lemma {:induction false} WithoutMissingLine(lines: seq<CartLine>, id: int, user: int)
    requires forall i :: 0 <= i < |lines| ==> !(lines[i].id == id && lines[i].userId == user)
    ensures WithoutLine(lines, id, user) == lines
  {
    if lines != [] {
      WithoutMissingLine(lines[1..], id, user);
      assert [lines[0]] + lines[1..] == lines;
    }
  }
}
