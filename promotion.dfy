/** controllers/promotionController.js: the promotion schema, the price
    reconciler `updateProductsPromotion` that rewrites the Product and
    ProductVariant tables, and the parts of `createPromotion`,
    `updatePromotion` and `deletePromotion` that drive it. Each bulk UPDATE
    statement is a function on the table it rewrites; `Catalog` holds the
    tables and runs the statements in the order the controller issues them. */
module Promotions {
  import opened Wrappers
  import Helper

  datatype DiscountType = Percentage | Fixed
  datatype PromotionKind = FlashSale | DiscountProgram

  /** A Product row, reduced to the columns the reconciler reads and writes. */
  datatype Product = Product(price: real, salePrice: Option<real>, promotionId: Option<int>)

  /** A ProductVariant row, reduced likewise. */
  datatype Variant = Variant(productId: int, price: real, salePrice: Option<real>)

  /** A Promotion row; dates are instants in milliseconds. */
  datatype Promotion = Promotion(
    name: string, kind: PromotionKind, startDate: int, endDate: int, isActive: bool,
    description: Option<string>, discountType: DiscountType, discountValue: real)

  /** The two tables the reconciler rewrites, keyed by row id. */
  datatype Tables = Tables(products: map<int, Product>, variants: map<int, Variant>)

  function Discount(dt: DiscountType, v: real, price: real): real {
    if dt == Percentage then price * v / 100.0 else v
  }

  /** The SQL price formula: `GREATEST(0, price - (price * v / 100))` for a
      percentage, `GREATEST(0, price - v)` for a fixed amount. */
  function SqlSalePrice(dt: DiscountType, v: real, price: real): (r: real)
    ensures r >= 0.0 && r >= price - Discount(dt, v, price)
    ensures r == 0.0 || r == price - Discount(dt, v, price)
  {
    if price - Discount(dt, v, price) >= 0.0 then price - Discount(dt, v, price) else 0.0
  }

  /** The product `id` exists and currently carries promotion `pid`: the
      subquery `SELECT id FROM "Products" WHERE promotion_id = pid`. */
  predicate Carries(products: map<int, Product>, id: int, pid: int) {
    id in products && products[id].promotionId == Some(pid)
  }

  /** `productIds && productIds.length > 0` and `id` is one of them. */
  predicate Listed(ids: Option<seq<int>>, id: int) {
    ids.Some? && id in ids.value
  }

  predicate HasList(ids: Option<seq<int>>) {
    ids.Some? && |ids.value| > 0
  }

  /** Statement 1: the variants of every product carrying `pid` get back
      their own price as sale price. */
  function ResetVariants(products: map<int, Product>, variants: map<int, Variant>, pid: int): (r: map<int, Variant>)
    ensures r.Keys == variants.Keys
    ensures forall k :: k in variants ==>
      r[k].productId == variants[k].productId && r[k].price == variants[k].price
      && (Carries(products, variants[k].productId, pid) ==> r[k].salePrice == Some(r[k].price))
      && (!Carries(products, variants[k].productId, pid) ==> r[k] == variants[k])
  {
    map k | k in variants ::
      if Carries(products, variants[k].productId, pid)
      then variants[k].(salePrice := Some(variants[k].price))
      else variants[k]
  }

  /** Statement 2: every product carrying `pid` loses it and gets back its price. */
  function ResetProducts(products: map<int, Product>, pid: int): (r: map<int, Product>)
    ensures r.Keys == products.Keys
    ensures forall k :: k in products ==>
      r[k].price == products[k].price && r[k].promotionId != Some(pid)
      && (products[k].promotionId == Some(pid) ==> r[k].salePrice == Some(r[k].price) && r[k].promotionId.None?)
      && (products[k].promotionId != Some(pid) ==> r[k] == products[k])
  {
    map k | k in products ::
      if products[k].promotionId == Some(pid)
      then products[k].(salePrice := Some(products[k].price), promotionId := None)
      else products[k]
  }

  /** Statement 3: every variant of a listed product gets the formula applied
      to its own price. */
  function ApplyVariants(variants: map<int, Variant>, ids: seq<int>, dt: DiscountType, v: real): (r: map<int, Variant>)
    ensures r.Keys == variants.Keys
    ensures forall k :: k in variants ==>
      r[k].productId == variants[k].productId && r[k].price == variants[k].price
      && (variants[k].productId in ids ==> r[k].salePrice == Some(SqlSalePrice(dt, v, r[k].price)))
      && (variants[k].productId !in ids ==> r[k] == variants[k])
  {
    map k | k in variants ::
      if variants[k].productId in ids
      then variants[k].(salePrice := Some(SqlSalePrice(dt, v, variants[k].price)))
      else variants[k]
  }

  /** Statement 4: every listed product is pointed at `pid` and gets the formula. */
  function ApplyProducts(products: map<int, Product>, pid: int, ids: seq<int>, dt: DiscountType, v: real): (r: map<int, Product>)
    ensures r.Keys == products.Keys
    ensures forall k :: k in products ==>
      r[k].price == products[k].price
      && (k in ids ==> r[k].promotionId == Some(pid) && r[k].salePrice == Some(SqlSalePrice(dt, v, r[k].price)))
      && (k !in ids ==> r[k] == products[k])
  {
    map k | k in products ::
      if k in ids
      then products[k].(salePrice := Some(SqlSalePrice(dt, v, products[k].price)), promotionId := Some(pid))
      else products[k]
  }

  /** The reset phase: variants first, selected by the products' current
      promotion, then the products themselves. */
  function ResetPhase(t: Tables, pid: int): (r: Tables)
    ensures r.products.Keys == t.products.Keys && r.variants.Keys == t.variants.Keys
    ensures forall k :: k in r.products ==> r.products[k].promotionId != Some(pid)
  {
    Tables(ResetProducts(t.products, pid), ResetVariants(t.products, t.variants, pid))
  }

  /** `updateProductsPromotion(promotion, productIds, discountType, discountValue)`:
      the reset phase, then the apply phase when the list is not empty. */
  function Reconcile(t: Tables, pid: int, ids: Option<seq<int>>, dt: DiscountType, v: real): (r: Tables)
    ensures r.products.Keys == t.products.Keys && r.variants.Keys == t.variants.Keys
    ensures forall k :: k in r.products ==> (r.products[k].promotionId == Some(pid) <==> Listed(ids, k))
  {
    var r := ResetPhase(t, pid);
    if HasList(ids)
    then Tables(ApplyProducts(r.products, pid, ids.value, dt, v), ApplyVariants(r.variants, ids.value, dt, v))
    else r
  }

  /** Where each product ends up: a listed product carries `pid` at the
      discounted price (whatever promotion it carried before); an unlisted
      product that carried `pid` is detached at its own price; every other
      product is untouched. No row appears or disappears. */
  lemma ReconcileProducts(t: Tables, pid: int, ids: Option<seq<int>>, dt: DiscountType, v: real)
    ensures Reconcile(t, pid, ids, dt, v).products.Keys == t.products.Keys
    ensures forall k :: k in t.products && Listed(ids, k) ==>
      Reconcile(t, pid, ids, dt, v).products[k]
        == Product(t.products[k].price, Some(SqlSalePrice(dt, v, t.products[k].price)), Some(pid))
    ensures forall k :: k in t.products && !Listed(ids, k) && t.products[k].promotionId == Some(pid) ==>
      Reconcile(t, pid, ids, dt, v).products[k] == Product(t.products[k].price, Some(t.products[k].price), None)
    ensures forall k :: k in t.products && !Listed(ids, k) && t.products[k].promotionId != Some(pid) ==>
      Reconcile(t, pid, ids, dt, v).products[k] == t.products[k]
  {
  }

  /** Where each variant ends up: a variant of a listed product gets the
      formula on its own price; one of an unlisted product that carried
      `pid` gets its price back; every other variant is untouched. */
  lemma ReconcileVariants(t: Tables, pid: int, ids: Option<seq<int>>, dt: DiscountType, v: real)
    ensures Reconcile(t, pid, ids, dt, v).variants.Keys == t.variants.Keys
    ensures forall k :: k in t.variants && Listed(ids, t.variants[k].productId) ==>
      Reconcile(t, pid, ids, dt, v).variants[k]
        == t.variants[k].(salePrice := Some(SqlSalePrice(dt, v, t.variants[k].price)))
    ensures forall k :: k in t.variants && !Listed(ids, t.variants[k].productId)
                        && Carries(t.products, t.variants[k].productId, pid) ==>
      Reconcile(t, pid, ids, dt, v).variants[k] == t.variants[k].(salePrice := Some(t.variants[k].price))
    ensures forall k :: k in t.variants && !Listed(ids, t.variants[k].productId)
                        && !Carries(t.products, t.variants[k].productId, pid) ==>
      Reconcile(t, pid, ids, dt, v).variants[k] == t.variants[k]
  {
  }

  /** The variant reset has to run first: run after the product reset, its
      subquery finds no product carrying the promotion and no variant changes. */
  lemma ResetOrderMatters(products: map<int, Product>, variants: map<int, Variant>, pid: int)
    ensures ResetVariants(ResetProducts(products, pid), variants, pid) == variants
  {
    var after := ResetProducts(products, pid);
    assert forall id :: !Carries(after, id, pid);
  }

  /** Once no product carries `pid`, the reset phase changes nothing. */
  lemma ResetWithoutCarriers(t: Tables, pid: int)
    requires forall k :: k in t.products ==> t.products[k].promotionId != Some(pid)
    ensures ResetPhase(t, pid) == t
  {
    assert forall id :: !Carries(t.products, id, pid);
    assert ResetVariants(t.products, t.variants, pid) == t.variants;
    assert ResetProducts(t.products, pid).Keys == t.products.Keys;
    assert forall k :: k in t.products ==> ResetProducts(t.products, pid)[k] == t.products[k];
    assert ResetProducts(t.products, pid) == t.products;
  }

  /** Reconciling twice with the same promotion and list gives the state
      reconciling once gives: the formula reads `price`, never `sale_price`. */
  lemma ReconcileIdempotent(t: Tables, pid: int, ids: Option<seq<int>>, dt: DiscountType, v: real)
    ensures Reconcile(Reconcile(t, pid, ids, dt, v), pid, ids, dt, v) == Reconcile(t, pid, ids, dt, v)
  {
    var once := Reconcile(t, pid, ids, dt, v);
    var twice := Reconcile(once, pid, ids, dt, v);
    ReconcileProducts(t, pid, ids, dt, v);
    ReconcileProducts(once, pid, ids, dt, v);
    ReconcileVariants(t, pid, ids, dt, v);
    ReconcileVariants(once, pid, ids, dt, v);
    assert forall k :: k in once.products ==> twice.products[k] == once.products[k];
    assert twice.products == once.products;
    forall k | k in once.variants
      ensures twice.variants[k] == once.variants[k]
    {
      var pk := t.variants[k].productId;
      assert once.variants[k].productId == pk && once.variants[k].price == t.variants[k].price;
      assert Carries(once.products, pk, pid) ==> Listed(ids, pk);
    }
    assert twice.variants == once.variants;
  }

  /** Reconciling with no list (absent or empty) detaches the promotion from
      every product. */
  lemma ReconcileWithoutListDetaches(t: Tables, pid: int, ids: Option<seq<int>>, dt: DiscountType, v: real)
    requires !HasList(ids)
    ensures Reconcile(t, pid, ids, dt, v) == ResetPhase(t, pid)
    ensures forall k :: k in t.products ==> Reconcile(t, pid, ids, dt, v).products[k].promotionId != Some(pid)
  {
  }

  /** With a non-negative price and discount (the schema requires the
      discount to be at least 0), the sale price lies between 0 and the price. */
  lemma SqlSalePriceBounds(dt: DiscountType, v: real, price: real)
    requires price >= 0.0 && v >= 0.0
    ensures 0.0 <= SqlSalePrice(dt, v, price) <= price
  {
    assert price * v >= 0.0;
  }

  function DiscountTypeText(dt: DiscountType): string {
    if dt == Percentage then "percentage" else "fixed"
  }

  /** The SQL formula agrees with `calculateSalePrice` for an active
      promotion of the same type and value. */
  lemma SqlAgreesWithHelper(dt: DiscountType, v: real, price: real)
    ensures SqlSalePrice(dt, v, price)
            == Helper.CalculateSalePrice(price, Some(Helper.PromotionView(true, DiscountTypeText(dt), v)))
  {
    assert price * v / 100.0 == price * (v / 100.0);
  }

  // ---------------------------------------------------------------------
  // The request schema.

  /** `req.body` with each field present or absent; values arrive already
      of the field's JavaScript type. `description` may also be `null`
      (`Some(None)`), which the schema allows. */
  datatype PromotionRequest = PromotionRequest(
    name: Option<string>, kind: Option<string>, startDate: Option<int>, endDate: Option<int>,
    isActive: Option<bool>, description: Option<Option<string>>, discountType: Option<string>,
    discountValue: Option<real>, productIds: Option<seq<int>>)

  /** The fields `promotionSchema` constrains, in the order it checks them. */
  datatype Field = NameField | KindField | StartDateField | EndDateField | DiscountTypeField | DiscountValueField

  function Rank(f: Field): nat {
    match f
    case NameField => 0
    case KindField => 1
    case StartDateField => 2
    case EndDateField => 3
    case DiscountTypeField => 4
    case DiscountValueField => 5
  }

  const SchemaOrder: seq<Field> :=
    [NameField, KindField, StartDateField, EndDateField, DiscountTypeField, DiscountValueField]

  /** The schema's rule for one field. */
  predicate FieldValid(req: PromotionRequest, f: Field) {
    match f
    case NameField => req.name.Some? && 1 <= |req.name.value| <= 255
    case KindField => req.kind == Some("flash_sale") || req.kind == Some("discount_program")
    case StartDateField => req.startDate.Some?
    case EndDateField => req.endDate.Some? && req.startDate.Some? && req.endDate.value > req.startDate.value
    case DiscountTypeField => req.discountType == Some("percentage") || req.discountType == Some("fixed")
    case DiscountValueField => req.discountValue.Some? && req.discountValue.value >= 0.0
  }

  /** The first field of `fs` that breaks its rule. */
  function FirstInvalid(req: PromotionRequest, fs: seq<Field>): (r: Option<nat>)
    ensures r.None? <==> forall i :: 0 <= i < |fs| ==> FieldValid(req, fs[i])
    ensures r.Some? ==> r.value < |fs| && !FieldValid(req, fs[r.value])
    ensures r.Some? ==> forall j :: 0 <= j < r.value ==> FieldValid(req, fs[j])
  {
    if fs == [] then None
    else if !FieldValid(req, fs[0]) then Some(0)
    else match FirstInvalid(req, fs[1..])
      case None => None
      case Some(i) => Some(i + 1)
  }

  /** The promotion data a request that passes the schema carries. */
  datatype PromotionData = PromotionData(
    name: string, kind: PromotionKind, startDate: int, endDate: int, isActive: Option<bool>,
    description: Option<Option<string>>, discountType: DiscountType, discountValue: real)

  /** `promotionSchema.validate(req.body)`: the first failing field in schema
      order (Joi stops at the first error), or the data the request carries. */
  function ValidatePromotion(req: PromotionRequest): (r: Result<PromotionData, Field>)
    ensures r.Success? <==> forall f :: FieldValid(req, f)
    ensures r.Failure? ==> !FieldValid(req, r.error)
    ensures r.Failure? ==> forall f :: Rank(f) < Rank(r.error) ==> FieldValid(req, f)
    ensures r.Success? ==>
      && req.name.Some? && req.startDate.Some? && req.endDate.Some? && req.discountValue.Some?
      && r.value.name == req.name.value && r.value.startDate == req.startDate.value
      && r.value.endDate == req.endDate.value && r.value.startDate < r.value.endDate
      && (r.value.kind == FlashSale <==> req.kind == Some("flash_sale"))
      && (r.value.discountType == Percentage <==> req.discountType == Some("percentage"))
      && r.value.discountValue == req.discountValue.value && r.value.discountValue >= 0.0
      && r.value.isActive == req.isActive && r.value.description == req.description
  {
    assert forall f :: SchemaOrder[Rank(f)] == f;
    match FirstInvalid(req, SchemaOrder)
    case Some(i) =>
      assert forall f :: Rank(f) < i ==> FieldValid(req, SchemaOrder[Rank(f)]);
      Failure(SchemaOrder[i])
    case None =>
      assert FieldValid(req, SchemaOrder[0]) && FieldValid(req, SchemaOrder[1]) && FieldValid(req, SchemaOrder[2]);
      assert FieldValid(req, SchemaOrder[3]) && FieldValid(req, SchemaOrder[4]) && FieldValid(req, SchemaOrder[5]);
      Success(PromotionData(
        req.name.value,
        if req.kind == Some("flash_sale") then FlashSale else DiscountProgram,
        req.startDate.value, req.endDate.value, req.isActive, req.description,
        if req.discountType == Some("percentage") then Percentage else Fixed,
        req.discountValue.value))
  }

  /** `Promotion.create(promotionData)`: `is_active` defaults to true. */
  function Created(d: PromotionData): (p: Promotion)
    ensures p.name == d.name && p.kind == d.kind && p.startDate == d.startDate && p.endDate == d.endDate
    ensures p.isActive == d.isActive.GetOr(true)
    ensures p.discountType == d.discountType && p.discountValue == d.discountValue
    ensures p.startDate < p.endDate || d.startDate >= d.endDate
    ensures p.description == d.description.GetOr(None)
    ensures d.description.None? || d.description == Some(None) ==> p.description.None?
  {
    Promotion(d.name, d.kind, d.startDate, d.endDate, d.isActive.GetOr(true), d.description.GetOr(None),
              d.discountType, d.discountValue)
  }

  /** `promotion.update(promotionData)`: the fields the request leaves out
      keep their stored value. */
  function Updated(old_: Promotion, d: PromotionData): (p: Promotion)
    ensures p.name == d.name && p.kind == d.kind && p.startDate == d.startDate && p.endDate == d.endDate
    ensures p.isActive == (if d.isActive.Some? then d.isActive.value else old_.isActive)
    ensures p.description == (if d.description.Some? then d.description.value else old_.description)
    ensures p.discountType == d.discountType && p.discountValue == d.discountValue
  {
    Promotion(d.name, d.kind, d.startDate, d.endDate, d.isActive.GetOr(old_.isActive),
              if d.description.Some? then d.description.value else old_.description,
              d.discountType, d.discountValue)
  }

  /** `needRecalculatePrice`, against the values stored before the update. */
  predicate NeedRecalculate(stored: Promotion, d: PromotionData, ids: Option<seq<int>>) {
    d.discountType != stored.discountType || d.discountValue != stored.discountValue || HasList(ids)
  }

  /** With the stored discount unchanged, prices are recomputed exactly when
      a non-empty product list comes with the update; a changed discount
      type or value always recomputes them. */
  lemma RecalculateWhen(stored: Promotion, d: PromotionData, ids: Option<seq<int>>)
    ensures d.discountType == stored.discountType && d.discountValue == stored.discountValue ==>
      (NeedRecalculate(stored, d, ids) <==> ids.Some? && ids.value != [])
    ensures d.discountType != stored.discountType || d.discountValue != stored.discountValue ==>
      NeedRecalculate(stored, d, ids)
  {
  }

  // ---------------------------------------------------------------------
  // The tables.

  class Catalog {
    var products: map<int, Product>
    var variants: map<int, Variant>
    var promotions: map<int, Promotion>
    var nextPromotionId: int

    /** Every promotion a product points at exists, and every promotion id
        was handed out before. */
    ghost predicate Valid()
      reads this
    {
      && (forall k :: k in products && products[k].promotionId.Some? ==> products[k].promotionId.value in promotions)
      && (forall id :: id in promotions ==> id < nextPromotionId)
    }

    function State(): Tables
      reads this
    {
      Tables(products, variants)
    }

    constructor (products: map<int, Product>, variants: map<int, Variant>)
      requires forall k :: k in products ==> products[k].promotionId.None?
      ensures Valid()
      ensures this.products == products && this.variants == variants
      ensures promotions == map[] && nextPromotionId == 1
    {
      this.products := products;
      this.variants := variants;
      promotions := map[];
      nextPromotionId := 1;
    }

    /** `updateProductsPromotion`: the four UPDATE statements in the order
        the controller issues them. */
    method UpdateProductsPromotion(pid: int, ids: Option<seq<int>>, dt: DiscountType, v: real)
      modifies this
      ensures State() == Reconcile(old(State()), pid, ids, dt, v)
      ensures promotions == old(promotions) && nextPromotionId == old(nextPromotionId)
      ensures old(Valid()) && pid in promotions ==> Valid()
    {
      variants := ResetVariants(products, variants, pid);
      products := ResetProducts(products, pid);
      if ids.Some? && |ids.value| > 0 {
        variants := ApplyVariants(variants, ids.value, dt, v);
        products := ApplyProducts(products, pid, ids.value, dt, v);
      }
    }

    /** `createPromotion`: 400 without a write when the schema fails;
        otherwise a new promotion row is stored and its product list priced. */
    method CreatePromotion(req: PromotionRequest) returns (status: Status, id: int)
      requires Valid()
      modifies this
      ensures Valid()
      ensures ValidatePromotion(req).Failure? ==>
        status == BadRequest400 && unchanged(this)
      ensures ValidatePromotion(req).Success? ==>
        && status == Created201 && id == old(nextPromotionId) && id !in old(promotions)
        && promotions == old(promotions)[id := Created(ValidatePromotion(req).value)]
        && nextPromotionId == id + 1
        && State() == Reconcile(old(State()), id, req.productIds,
                                ValidatePromotion(req).value.discountType, ValidatePromotion(req).value.discountValue)
      ensures ValidatePromotion(req).Success? ==>
        forall k :: k in old(products) && !Listed(req.productIds, k) ==> products[k] == old(products[k])
    {
      id := 0;
      var checked := ValidatePromotion(req);
      if checked.Failure? {
        return BadRequest400, id;
      }
      var d := checked.value;
      id := nextPromotionId;
      promotions := promotions[id := Created(d)];
      nextPromotionId := nextPromotionId + 1;
      ghost var before := State();
      assert forall k :: k in before.products ==> before.products[k].promotionId != Some(id);
      ReconcileProducts(before, id, req.productIds, d.discountType, d.discountValue);
      UpdateProductsPromotion(id, req.productIds, d.discountType, d.discountValue);
      status := Created201;
    }

    /** `updatePromotion`: 400 or 404 without a write; otherwise the row is
        updated, and the prices are recomputed with the new discount only when
        `needRecalculatePrice` held against the stored one. */
    method UpdatePromotion(pid: int, req: PromotionRequest) returns (status: Status)
      requires Valid()
      modifies this
      ensures Valid()
      ensures ValidatePromotion(req).Failure? ==> status == BadRequest400 && unchanged(this)
      ensures ValidatePromotion(req).Success? && pid !in old(promotions) ==>
        status == NotFound404 && unchanged(this)
      ensures ValidatePromotion(req).Success? && pid in old(promotions) ==>
        && status == Ok200
        && promotions == old(promotions)[pid := Updated(old(promotions[pid]), ValidatePromotion(req).value)]
        && nextPromotionId == old(nextPromotionId)
        && State() == (if NeedRecalculate(old(promotions[pid]), ValidatePromotion(req).value, req.productIds)
                       then Reconcile(old(State()), pid, req.productIds,
                                      ValidatePromotion(req).value.discountType, ValidatePromotion(req).value.discountValue)
                       else old(State()))
    {
      var checked := ValidatePromotion(req);
      if checked.Failure? {
        return BadRequest400;
      }
      if pid !in promotions {
        return NotFound404;
      }
      var d := checked.value;
      var needRecalculatePrice := NeedRecalculate(promotions[pid], d, req.productIds);
      promotions := promotions[pid := Updated(promotions[pid], d)];
      if needRecalculatePrice {
        UpdateProductsPromotion(pid, req.productIds, d.discountType, d.discountValue);
      }
      status := Ok200;
    }

    /** `deletePromotion`: 404 without a write for an unknown id; otherwise
        the reset phase, then the row is destroyed. */
    method DeletePromotion(pid: int) returns (status: Status)
      requires Valid()
      modifies this
      ensures Valid()
      ensures pid !in old(promotions) ==> status == NotFound404 && unchanged(this)
      ensures pid in old(promotions) ==>
        && status == Ok200
        && State() == ResetPhase(old(State()), pid)
        && State() == Reconcile(old(State()), pid, None, Percentage, 0.0)
        && promotions == old(promotions) - {pid}
        && nextPromotionId == old(nextPromotionId)
    {
      if pid !in promotions {
        return NotFound404;
      }
      variants := ResetVariants(products, variants, pid);
      products := ResetProducts(products, pid);
      promotions := promotions - {pid};
      status := Ok200;
    }
  }
}
