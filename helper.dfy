/** utils/helper.js: the option parser for multipart form data and the
    sale-price helper. */
module Helper {
  import opened Wrappers

  /** The JavaScript values `parseOptions` can be handed. */
  datatype JsValue =
    | Undefined
    | Null
    | Bool(b: bool)
    | Number(n: real)
    | NaN
    | Str(s: string)
    | Array(items: seq<JsValue>)
    | Object(fields: seq<(string, JsValue)>)

  /** The values JavaScript treats as false in a condition. */
  predicate Falsy(v: JsValue) {
    v.Undefined? || v.Null? || v == Bool(false) || v == Number(0.0) || v.NaN? || v == Str("")
  }

  /** `parseOptions(optionsData)`. Form data turns an array of options into
      its JSON text, so a string is parsed back; `jsonParse` stands for
      `JSON.parse`, with `None` when it throws. */
  function ParseOptions(data: JsValue, jsonParse: string -> Option<JsValue>): (r: JsValue)
    ensures Falsy(data) ==> r == Array([])
    ensures !Falsy(data) && data.Str? ==> r == jsonParse(data.s).GetOr(Array([]))
    ensures !Falsy(data) && !data.Str? ==> r == data
  {
    if Falsy(data) then Array([])
    else if data.Str? then
      match jsonParse(data.s)
      case Some(v) => v
      case None => Array([])
    else data
  }

  /** The caller gets an array back exactly when the options are missing or
      falsy, are an array already, or are text that `JSON.parse` either
      rejects or reads as an array. */
  lemma ParseOptionsGivesArray(data: JsValue, jsonParse: string -> Option<JsValue>)
    ensures ParseOptions(data, jsonParse).Array? <==>
      Falsy(data) || data.Array? || (data.Str? && (jsonParse(data.s).None? || jsonParse(data.s).value.Array?))
  {
  }

  /** A promotion as `calculateSalePrice` reads it: `discount_value` after
      `parseFloat`, `discount_type` as the stored text. */
  datatype PromotionView = PromotionView(isActive: bool, discountType: string, discountValue: real)

  function Max(a: real, b: real): real {
    if a >= b then a else b
  }

  /** `calculateSalePrice(originalPrice)` with the product's promotion passed
      explicitly: without an active promotion the price stands; otherwise a
      percentage or a fixed amount is taken off, never going below zero. */
  function CalculateSalePrice(originalPrice: real, promotion: Option<PromotionView>): (r: real)
    ensures promotion.None? || !promotion.value.isActive ==> r == originalPrice
    ensures promotion.Some? && promotion.value.isActive ==>
      r >= 0.0 &&
      r == Max(0.0, originalPrice - (if promotion.value.discountType == "percentage"
                                     then originalPrice * (promotion.value.discountValue / 100.0)
                                     else promotion.value.discountValue))
    ensures originalPrice >= 0.0 && promotion.Some? && promotion.value.discountValue >= 0.0 ==>
      r <= originalPrice
  {
    var salePrice := originalPrice;
    if promotion.Some? && promotion.value.isActive then
      var val := promotion.value.discountValue;
      var discounted := if promotion.value.discountType == "percentage"
                        then originalPrice - originalPrice * (val / 100.0)
                        else originalPrice - val;
      assert originalPrice >= 0.0 && val >= 0.0 ==> originalPrice * (val / 100.0) >= 0.0;
      Max(0.0, discounted)
    else salePrice
  }

  /** `calculateSalePrice` as written: it reads `product`, which is neither a
      parameter nor declared in the module, so the name is looked up among the
      globals. `globalProduct` is that lookup: `None` when no global `product`
      exists, which throws a ReferenceError, else the global's promotion. */
  function CalculateSalePriceAsWritten(originalPrice: real, globalProduct: Option<Option<PromotionView>>): (r: Result<real, string>)
    ensures globalProduct.None? <==> r.Failure?
  {
    match globalProduct
    case None => Failure("ReferenceError: product is not defined")
    case Some(promotion) => Success(CalculateSalePrice(originalPrice, promotion))
  }

  /** Called with a price only, as its signature asks, the helper as written
      fails whenever no global `product` is defined, whatever the price; the
      corrected helper, given the promotion, answers for every price. */
  lemma SalePriceAsWrittenThrows(originalPrice: real, promotion: Option<PromotionView>)
    ensures CalculateSalePriceAsWritten(originalPrice, None)
            == Failure("ReferenceError: product is not defined")
    ensures CalculateSalePriceAsWritten(originalPrice, Some(promotion))
            == Success(CalculateSalePrice(originalPrice, promotion))
  {
  }
}
