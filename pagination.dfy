/** utils/pagination.js: `paginate(model, options)` reads `page` and `limit`
    from the request's query string, asks the model for one page of rows and
    the total count, and reports the page together with the page count. The
    query itself (`findAndCountAll`) is abstracted: `FindOptions` is what it is
    asked, and its answer is passed to `PageOf` as `count` and `rows`. */
module Pagination {
  import opened Wrappers
  import opened JsText

  /** A value of the options object handed to `paginate`. */
  datatype OptionValue =
    | Request(query: map<string, string>)
    | IntValue(i: int)
    | OtherValue(text: string)

  type Options = map<string, OptionValue>

  /** `options.req?.query?.[key]`. */
  function QueryParam(options: Options, key: string): Option<string> {
    if "req" in options && options["req"].Request? && key in options["req"].query
    then Some(options["req"].query[key])
    else None
  }

  /** `parseInt(value) || fallback`: a missing value is rendered "undefined"
      before parsing; `NaN` and 0 are both falsy, so both give the fallback. */
  function ParseIntOr(value: Option<string>, fallback: int): (r: int)
    ensures fallback != 0 ==> r != 0
  {
    match ParseInt(value.GetOr("undefined"), AutoRadix)
    case None => fallback
    case Some(n) => if n == 0 then fallback else n
  }

  /** The page served: never 0, so the falsy values all fall back to page 1. */
  function PageNumber(options: Options): (r: int)
    ensures r != 0
    ensures QueryParam(options, "page").None? ==> r == 1
  {
    UndefinedIsNaN();
    ParseIntOr(QueryParam(options, "page"), 1)
  }

  /** The page size: never 0, so the page count is always defined. */
  function PageLimit(options: Options): (r: int)
    ensures r != 0
    ensures QueryParam(options, "limit").None? ==> r == 10
  {
    UndefinedIsNaN();
    ParseIntOr(QueryParam(options, "limit"), 10)
  }

  /** The rows skipped: none on page 1, at least a full page on any later
      page, and none before the first row for a positive page and limit. */
  function Offset(options: Options): (r: int)
    ensures PageNumber(options) == 1 ==> r == 0
    ensures PageNumber(options) > 1 && PageLimit(options) > 0 ==> r >= PageLimit(options)
    ensures PageNumber(options) >= 1 && PageLimit(options) > 0 ==> r >= 0
  {
    var page := PageNumber(options);
    var limit := PageLimit(options);
    if page > 1 && limit > 0 then
      MulMonotone(1, page - 1, limit);
      (page - 1) * limit
    else (page - 1) * limit
  }

  /** `Math.ceil(count / limit)` for a non-zero limit. */
  function CeilDiv(count: nat, limit: int): (r: int)
    requires limit != 0
    ensures limit > 0 ==> (r - 1) * limit < count <= r * limit
    ensures limit < 0 ==> r * limit <= count < (r - 1) * limit
    ensures count == 0 ==> r == 0
  {
    if limit > 0 then (count + limit - 1) / limit else -(count / -limit)
  }

  /** The options passed on to `findAndCountAll`: `req` removed, and the
      computed `limit` and `offset` overriding any the caller supplied. */
  function FindOptions(options: Options): (q: Options)
    ensures q.Keys == options.Keys - {"req"} + {"limit", "offset"}
    ensures q["limit"] == IntValue(PageLimit(options)) && q["offset"] == IntValue(Offset(options))
    ensures forall k :: k in options && k != "req" && k != "limit" && k != "offset" ==> q[k] == options[k]
  {
    WithPaging(options - {"req"}, PageLimit(options), Offset(options))
  }

  /** `rest` with `limit` and `offset` set to the given numbers. */
  function WithPaging(rest: Options, limit: int, offset: int): (q: Options)
    ensures q.Keys == rest.Keys + {"limit", "offset"}
    ensures q["limit"] == IntValue(limit) && q["offset"] == IntValue(offset)
    ensures forall k :: k in rest && k != "limit" && k != "offset" ==> q[k] == rest[k]
  {
    rest["limit" := IntValue(limit)]["offset" := IntValue(offset)]
  }

  /** The object `paginate` resolves to. */
  datatype Page<R> = Page(data: seq<R>, total: nat, page: int, limit: int, totalPages: int)

  /** `paginate`'s result, given what the query returned: the computed page
      and limit are echoed and `totalPages` is the ceiling of `count / limit`. */
  function PageOf<R>(options: Options, count: nat, rows: seq<R>): (p: Page<R>)
    ensures p.data == rows && p.total == count
    ensures p.page == PageNumber(options) && p.limit == PageLimit(options)
    ensures p.totalPages == CeilDiv(count, p.limit)
  {
    Page(rows, count, PageNumber(options), PageLimit(options), CeilDiv(count, PageLimit(options)))
  }

  /** Without a `page` in the query (or with "0") and without a `limit`, the
      first page of ten rows is served, starting at offset 0. */
  lemma DefaultsWithoutQuery(options: Options)
    requires QueryParam(options, "page").None? || QueryParam(options, "page") == Some("0")
    requires QueryParam(options, "limit").None?
    ensures PageNumber(options) == 1 && PageLimit(options) == 10 && Offset(options) == 0
  {
    FallbackWithoutValue(QueryParam(options, "page"), 1);
    FallbackWithoutValue(QueryParam(options, "limit"), 10);
  }

  /** A missing value, and the value "0", give the fallback. */
  lemma FallbackWithoutValue(value: Option<string>, fallback: int)
    requires value.None? || value == Some("0")
    ensures ParseIntOr(value, fallback) == fallback
  {
    if value.None? {
      UndefinedIsNaN();
    } else {
      ParseIntOfDecimalString(0, "", AutoRadix);
      assert DecimalString(0) + "" == "0";
    }
  }

  lemma UndefinedIsNaN()
    ensures ParseInt("undefined", AutoRadix) == None
  {
    ParseIntWithoutDigits("undefined", AutoRadix);
  }

  /** A page number written in decimal is taken as it is, and page `n`
      starts `(n - 1) * limit` rows in; page 1 starts at offset 0. */
  lemma RequestedPage(options: Options, n: int, l: int)
    requires n != 0 && l != 0
    requires QueryParam(options, "page") == Some(DecimalString(n))
    requires QueryParam(options, "limit") == Some(DecimalString(l))
    ensures PageNumber(options) == n && PageLimit(options) == l
    ensures Offset(options) == (n - 1) * l
    ensures n == 1 ==> Offset(options) == 0
  {
    ParseIntOfDecimalString(n, "", AutoRadix);
    ParseIntOfDecimalString(l, "", AutoRadix);
    assert DecimalString(n) + "" == DecimalString(n);
    assert DecimalString(l) + "" == DecimalString(l);
    assert PageNumber(options) == n;
    assert PageLimit(options) == l;
  }

  /** With a positive limit, the pages 1 to `totalPages` are exactly the
      ones that start before the end of the result: the last of them is not
      empty and the one after it is. */
  lemma PagesCoverCount(count: nat, limit: int, k: int)
    requires limit > 0
    ensures 1 <= k <= CeilDiv(count, limit) <==> 0 <= (k - 1) * limit < count
  {
    var t := CeilDiv(count, limit);
    if 1 <= k <= t {
      MulMonotone(k - 1, t - 1, limit);
      MulMonotone(0, k - 1, limit);
    } else if k < 1 {
      MulMonotone(k - 1, -1, limit);
    } else {
      MulMonotone(t, k - 1, limit);
    }
  }

  lemma MulMonotone(a: int, b: int, c: int)
    requires a <= b && c > 0
    ensures a * c <= b * c
  {
    assert b * c - a * c == (b - a) * c;
  }
}
