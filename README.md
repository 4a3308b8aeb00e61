# A model of the shop backend's pricing, cart, address book and utilities

This project models, in Dafny, the parts of the Node.js/Express e-commerce
backend that keep derived data consistent:

- **Promotion reconciler** (`controllers/promotionController.js`). This is
  `updateProductsPromotion`, plus the create, update and delete handlers that
  drive it. The four bulk UPDATE statements are functions on the Product and
  ProductVariant tables (`Promotions.ResetVariants`, `ResetProducts`,
  `ApplyVariants` and `ApplyProducts`). The class `Promotions.Catalog` holds
  the tables and runs the statements in the controller's order. The SQL
  price formula `GREATEST(0, …)` is `Promotions.SqlSalePrice`.
- **Cart** (`controllers/cartController.js`). The cart-line table is the
  class `Carts.Cart`. Its methods are `addToCart` (merge or create),
  `updateCartItem`, `removeFromCart` and `clearCart`, and each filters by the
  caller's user id.
- **Address book** (`controllers/addressController.js`). The UserAddress
  table is the class `Addresses.AddressBook`. Its writes keep at most one
  default address per user. `getAddresses` is the ordered listing
  `Addresses.ListAddresses`.
- **Utilities**:
  - `utils/helper.js`: `parseOptions` and `calculateSalePrice`.
  - `utils/pagination.js`: `paginate`'s page, limit, offset and page count.
  - `utils/rustfs.js`: the storage settings derived from the environment,
    the URL `uploadFile` returns, and the key `deleteFile` recovers from it.

The JavaScript built-ins these rely on are written out in `JsText`:

- `parseInt`, following ECMAScript section 19.2.5, "parseInt ( string,
  radix )";
- the rendering of an integer in a template literal;
- `String.prototype.replace` with a string pattern, which replaces only the
  first occurrence.

## Components

**Tables and requests.**
- A table is a `map` from row id to row, or a `seq` of rows in table order.
- A request body is a datatype whose fields are `Option`s. `None` means the
  key is absent.
- Each handler's HTTP status is a `Wrappers.Status`.

**External services become data.**
- The database answers are passed in as data. For example, the product ids
  that `Product.findByPk` would find are a parameter of `AddToCart`.
- `JSON.parse` is the function parameter `jsonParse`.
- The process environment is the map `Rustfs.Env`.
- The clock is the `now` argument of `CreateAddress`.
- Each request is processed on its own, in one piece.

## Model

| member | source | states |
|---|---|---|
| Helper.ParseOptions | utils/helper.js:6-16 | A falsy argument gives the empty array. A string gives what `JSON.parse` makes of it, or the empty array when parsing throws. Any other value comes back unchanged. |
| Helper.ParseOptionsGivesArray | utils/helper.js:6-16 | The options come back as an array exactly when they are missing or falsy, are already an array, or are text that `JSON.parse` rejects or reads as an array. |
| Helper.CalculateSalePrice | utils/helper.js:19-32 | Without an active promotion the sale price is the price. With one, it is the price less a percentage or a fixed amount, floored at 0. It is never above the price for a non-negative price and discount. |
| Helper.CalculateSalePriceAsWritten | utils/helper.js:19-22 | The helper as written fails exactly when there is no global `product` to read the promotion from. |
| Helper.SalePriceAsWrittenThrows | utils/helper.js:21 | Called with a price only, the helper as written throws a ReferenceError for every price. When a promotion is available it agrees with the corrected helper. |
| JsText.ParseIntOfDecimalString | utils/pagination.js:2-3 | `parseInt` reads back every integer rendered in decimal, in both radix modes. Trailing text is allowed if it starts with neither a digit nor "x"/"X". |
| JsText.ParseIntWithoutDigits | utils/pagination.js:2-3 | Text with no decimal digit, such as the rendering "undefined" of a missing query value, parses to `NaN`. |
| JsText.ParseInt | utils/pagination.js:2-3 | `parseInt` gives `NaN` for blank text. A negative result needs a leading minus sign after the white space. |
| JsText.NatDigitsAreDecimal | utils/rustfs.js:34 | The rendering of a natural number is all decimal digits, denotes that number, and has no leading zero. |
| JsText.ReplaceFirst | utils/rustfs.js:57 | Text without the pattern is unchanged. Otherwise only the first occurrence of the pattern is replaced. |
| JsText.ReplacePrefixWithEmpty | utils/rustfs.js:57 | Cutting a prefix out of prefix + rest leaves exactly rest, even when rest contains the prefix again. |
| Pagination.ParseIntOr | utils/pagination.js:2-3 | `parseInt(v) \|\| fallback` is never 0 when the fallback is non-zero, so the limit is never 0. |
| Pagination.PageNumber | utils/pagination.js:2 | The page served is never 0, and it is 1 when the query has no `page`. |
| Pagination.PageLimit | utils/pagination.js:3 | The page size is never 0, and it is 10 when the query has no `limit`. |
| Pagination.Offset | utils/pagination.js:4 | Page 1 skips no rows, and any later page skips at least one full page. For a positive page and limit the offset is never negative. |
| Pagination.CeilDiv | utils/pagination.js:20 | `Math.ceil(count / limit)` is the least r with count <= r * limit for a positive limit, and the matching bound for a negative one. No rows give 0 pages. |
| Pagination.FindOptions | utils/pagination.js:6-13 | The query gets every caller option except `req`, with the computed `limit` and `offset` overriding any the caller gave. |
| Pagination.PageOf | utils/pagination.js:15-21 | The result carries the rows and count the query returned, the page and limit in effect, and `totalPages` as the ceiling of count / limit. |
| Pagination.DefaultsWithoutQuery | utils/pagination.js:2-4 | With no usable page (absent or "0") and no limit, page 1 of 10 rows is served from offset 0. |
| Pagination.FallbackWithoutValue | utils/pagination.js:2-3 | A missing value and the value "0" both give the fallback. |
| Pagination.UndefinedIsNaN | utils/pagination.js:2 | The missing value, rendered "undefined", parses to `NaN`. |
| Pagination.RequestedPage | utils/pagination.js:2-4 | A decimal, non-zero page n and limit l are taken as given, and the offset is (n - 1) * l. Page 1 starts at offset 0. |
| Pagination.PagesCoverCount | utils/pagination.js:20 | For a positive limit, the pages 1 to `totalPages` are exactly those that start inside the result (0 <= offset < count). |
| Rustfs.UseSsl | utils/rustfs.js:4 | SSL is on exactly when RUSTFS_USE_SSL is the text "true"; "TRUE" or "1" leave it off. |
| Rustfs.Port | utils/rustfs.js:6 | An empty or missing RUSTFS_PORT gives 443 with SSL and 80 without. A set value is parsed in radix 10, possibly to `NaN`. |
| Rustfs.PortSuffix | utils/rustfs.js:34 | The suffix is empty exactly for the ports 80 and 443. Otherwise it is ":" and the rendered port, "NaN" included. |
| Rustfs.BaseUrl | utils/rustfs.js:25-36 | With a public domain, the base URL is that domain and the bucket. Otherwise it is protocol, endpoint, port suffix and bucket, with an unset variable spelled "undefined". |
| Rustfs.UploadUrl | utils/rustfs.js:46 | The returned URL is the base URL, "/" and the file name, piece for piece. |
| Rustfs.DeleteKey | utils/rustfs.js:57 | The key is the argument with the first occurrence of the base URL and "/" cut out. It is unchanged when that text does not occur, and otherwise exactly that many characters shorter. |
| Rustfs.DeleteKeyOfUploadUrl | utils/rustfs.js:46-57 | Deleting by the URL an upload returned removes the uploaded key, whatever the key contains. |
| Rustfs.DeleteKeyOfBareKey | utils/rustfs.js:57 | A bare key that does not contain the base URL and "/" is used unchanged. |
| Rustfs.PortSuffixFromEnv | utils/rustfs.js:6-34 | Without RUSTFS_PORT no port appears in the URL. An explicit decimal port other than 80 and 443 appears after a ":". |
| Rustfs.BaseUrlScheme | utils/rustfs.js:33-35 | Without a public domain, the base URL starts with "https://" exactly when SSL is on. |
| Promotions.SqlSalePrice | controllers/promotionController.js:64-71 | The SQL formula gives the price less the discount, or 0 when that is negative. It is never below either. |
| Promotions.SqlSalePriceBounds | controllers/promotionController.js:64-71 | For a non-negative price and discount (the schema's `min(0)`), the sale price lies between 0 and the price. |
| Promotions.SqlAgreesWithHelper | controllers/promotionController.js:64-71 | The SQL formula equals `calculateSalePrice` for an active promotion of the same type and value. |
| Promotions.ResetVariants | controllers/promotionController.js:30-42 | Only sale prices change. Exactly the variants of products that carry the promotion get their own price back. |
| Promotions.ResetProducts | controllers/promotionController.js:45-54 | No product carries the promotion afterwards. Exactly those that did are detached at their own price, and every other product is unchanged. |
| Promotions.ApplyVariants | controllers/promotionController.js:59-80 | Exactly the variants of listed products get the SQL formula on their own price. Every other variant is unchanged. |
| Promotions.ApplyProducts | controllers/promotionController.js:59-95 | Exactly the listed products carry the promotion at the SQL formula's price. Every other product is unchanged. |
| Promotions.ResetPhase | controllers/promotionController.js:30-54 | The reset keeps every row, and afterwards no product carries the promotion. |
| Promotions.Reconcile | controllers/promotionController.js:21-97 | Every row is kept. Afterwards a product carries the promotion exactly when it is on the non-empty list. |
| Promotions.ReconcileProducts | controllers/promotionController.js:45-95 | No product row appears or disappears. A listed product carries the promotion at the discounted price, whatever it carried before. An unlisted product that carried it is detached at its own price. Every other product is untouched. |
| Promotions.ReconcileVariants | controllers/promotionController.js:30-80 | A variant of a listed product gets the formula on its own price. A variant of an unlisted product that carried the promotion gets its price back. Every other variant is untouched. |
| Promotions.ResetOrderMatters | controllers/promotionController.js:30-54 | The variant reset has to run before the product reset: run after it, its subquery selects nothing and no variant changes. |
| Promotions.ResetWithoutCarriers | controllers/promotionController.js:30-54 | Once no product carries the promotion, the reset phase changes nothing. |
| Promotions.ReconcileIdempotent | controllers/promotionController.js:21-97 | Reconciling twice with the same promotion and list leaves the tables as reconciling once does. |
| Promotions.ReconcileWithoutListDetaches | controllers/promotionController.js:45-59 | With an absent or empty list only the reset runs, and no product carries the promotion afterwards. |
| Promotions.FirstInvalid | controllers/promotionController.js:9-19 | Finds the first field that breaks its rule: none exactly when all pass, otherwise a failing field with every earlier field passing. |
| Promotions.ValidatePromotion | controllers/promotionController.js:9-19 | The request passes exactly when every rule holds. A failure names the first failing field in schema order. On success the data is the request's values, with end after start and the discount at least 0. |
| Promotions.Created | controllers/promotionController.js:140-143 | The new row stores the request's name, type, dates and discount. `is_active` defaults to true. The description is the request's text, and NULL when it is absent or `null`. |
| Promotions.Updated | controllers/promotionController.js:185-195 | The row stores the request's name, type, dates and discount. `is_active` and `description` keep their stored values when the request leaves them out, and a `null` description clears it. |
| Promotions.RecalculateWhen | controllers/promotionController.js:189-192 | `needRecalculatePrice`: with the same discount type and value, prices are recomputed exactly when a non-empty product list is sent. A changed type or value always recomputes them. |
| Promotions.Catalog.UpdateProductsPromotion | controllers/promotionController.js:21-97 | The four statements turn the tables into `Reconcile` of the old tables. The promotions are unchanged, and every promotion a product points at still exists. |
| Promotions.Catalog.CreatePromotion | controllers/promotionController.js:127-166 | A failed schema gives 400 with no write. Otherwise the new row gets a fresh id, the listed products are priced with its discount, products off the list are untouched, and the answer is 201. |
| Promotions.Catalog.UpdatePromotion | controllers/promotionController.js:168-220 | 400 when the schema fails, else 404 for an unknown id, both without a write. Otherwise the row is updated, and prices are reconciled with the new discount exactly when `needRecalculatePrice` held against the stored values. |
| Promotions.Catalog.DeletePromotion | controllers/promotionController.js:222-273 | An unknown id gives 404 with no write. Otherwise the reset phase runs, so no product keeps the promotion, and the row is removed. |
| Carts.NormalizeVariant | controllers/cartController.js:51 | Absent, `null` and the falsy 0 all become "no variant". Any other number is kept. |
| Carts.ValidateCartItem | controllers/cartController.js:6-10 | The request passes exactly when `product_id` is present and the quantity is an integer of at least 1. A missing `product_id` is the error reported first. |
| Carts.FindLine | controllers/cartController.js:47-53 | Finds the first line with the (user, product, variant) key, or none exactly when no line has it. |
| Carts.FindOwned | controllers/cartController.js:81-83 | Finds a line with that id owned by the caller, or none exactly when there is no such line. |
| Carts.AddLines | controllers/cartController.js:55-65 | An existing line with the key grows by the quantity and nothing else changes. Otherwise exactly one line with a fresh id is appended, storing the normalized variant id the lookup used. This is the corrected insert (see Findings). |
| Carts.AddLinesKeepsUnique | controllers/cartController.js:47-65 | Merge-or-create never produces two lines with one id or one key. |
| Carts.AddLinesOthersUntouched | controllers/cartController.js:47-65 | Adding to one user's cart leaves every other user's lines as they were. |
| Carts.UniqueQuantityChange | controllers/cartController.js:87-88 | Setting a line's quantity keeps ids and keys unique. |
| Carts.WithoutLine | controllers/cartController.js:99-101 | The destroy keeps exactly the lines that are not the caller's line with that id. |
| Carts.WithoutMissingLine | controllers/cartController.js:99-103 | Destroying a line the caller does not own, or one that does not exist, changes nothing. |
| Carts.LinesOfWithoutLine | controllers/cartController.js:99-101 | Removing a line of one user leaves every other user's lines as they were. |
| Carts.WithoutUser | controllers/cartController.js:114-116 | Clearing keeps exactly the lines of other users. |
| Carts.LinesOfWithoutUser | controllers/cartController.js:114-116 | The caller's cart is empty afterwards, and every other cart is as it was. |
| Carts.StoredVariantAsWritten | controllers/cartController.js:62 | As written, the insert stores exactly the number the request carries, 0 included, and `null` when the request has no number. |
| Carts.AddLinesAsWritten | controllers/cartController.js:47-65 | As written, a line found under the normalized key grows by the quantity and nothing else changes. Otherwise one line is appended carrying the raw variant id from the request. |
| Carts.DuplicateLineAsWritten | controllers/cartController.js:51-62 | As written, two identical adds with variant id 0 leave two lines with the same key. |
| Carts.RepeatedAddMerges | controllers/cartController.js:47-65 | With the normalized variant id stored, the same two adds merge into one line with quantity 2. |
| Carts.Cart.AddToCart | controllers/cartController.js:35-72 | A failed schema gives 400 and an unknown product gives 404, both without a write. Otherwise the merge-or-create runs, the answer is 201, and ids and keys stay unique. Other users' carts are untouched. The insert is the corrected one, storing the normalized variant id. |
| Carts.Cart.UpdateCartItem | controllers/cartController.js:74-95 | A quantity that is not a number of at least 1 gives 400, and a line the caller does not own gives 404, both without a write. Otherwise exactly that line's quantity is set. |
| Carts.Cart.RemoveFromCart | controllers/cartController.js:97-110 | The caller's line with that id is destroyed. The answer is 404 exactly when there was none, and then nothing changes. |
| Carts.Cart.ClearCart | controllers/cartController.js:112-122 | All of the caller's lines and no others are destroyed. |
| Addresses.ValidateAddress | controllers/addressController.js:4-10 | Passes exactly when the name (1 to 255 characters), the phone (1 to 20), the address (non-empty) and the optional type hold. A failure names the first failing field. |
| Addresses.NewAddress | controllers/addressController.js:43-47 | The created row belongs to the caller and stores the request's receiver name, phone and address text. It carries the final default flag and gets type home unless "office" was asked for. |
| Addresses.Updated | controllers/addressController.js:74 | The receiver name, phone and address text become the request's, and so does the type when one is sent. Id, owner and creation time stay, and the stored flag stays when the request has none. |
| Addresses.FindOwned | controllers/addressController.js:60-62 | Finds a row with that id owned by the caller, or none exactly when there is no such row. |
| Addresses.UnsetDefaults | controllers/addressController.js:33-36 | The bulk update clears the flag on every row of the caller and touches no other row. |
| Addresses.CountAfterUnset | controllers/addressController.js:33-36 | After the bulk update the caller has no default left, and every other user's count is unchanged. |
| Addresses.CreateRows | controllers/addressController.js:31-47 | One row built from the request is appended, owned by the caller with the new id and time, and it is a default when asked. Existing rows are untouched unless `is_default` is sent; when it is, exactly the caller's rows lose their flag. |
| Addresses.UpdateRows | controllers/addressController.js:65-74 | The row becomes its update from the request. The caller's other rows lose their flag exactly when `is_default: true` is sent for a row that was not the default; otherwise no other row changes. |
| Addresses.DeleteRows | controllers/addressController.js:88-101 | Exactly the chosen row goes. When it was the default and the caller has rows left, the latest of them is flagged and nothing else changes. Otherwise the remaining rows are untouched. |
| Addresses.SetDefaultRows | controllers/addressController.js:116-122 | This is the corrected write. The chosen row is flagged, every other row of the caller is unflagged, and other users' rows are unchanged. |
| Addresses.LatestOf | controllers/addressController.js:93-96 | Finds a row of the caller with the greatest creation time, or none exactly when the caller has no row. |
| Addresses.CreateKeepsOneDefault | controllers/addressController.js:31-47 | Creating keeps at most one default per user. A first address, or one asked to be default, becomes the only default. Otherwise the new row is not a default. |
| Addresses.UpdateKeepsOneDefault | controllers/addressController.js:65-74 | Updating keeps at most one default per user. |
| Addresses.DeleteKeepsOneDefault | controllers/addressController.js:88-101 | Deleting keeps at most one default per user. Deleting the default while other rows remain leaves exactly one default. |
| Addresses.SetDefaultMakesOnlyDefault | controllers/addressController.js:116-122 | With the flag written unconditionally, the chosen row becomes the caller's only default. |
| Addresses.SetDefaultRowsAsWritten | controllers/addressController.js:116-122 | As written, when the loaded row was already the default the caller is left with no default. Otherwise the result equals the corrected write. |
| Addresses.SetDefaultAsWrittenLosesDefault | controllers/addressController.js:116-122 | As written, choosing the address that already is the default leaves the user with no default. Corrected, it leaves exactly one. |
| Addresses.SortForListing | controllers/addressController.js:14-17 | The listing is a permutation of its input, ordered default first, then newest first. |
| Addresses.ListAddresses | controllers/addressController.js:12-22 | Lists exactly the caller's rows, as a permutation, ordered default first and then newest first. With at most one default, no row after the first is a default. |
| Addresses.AddressBook.CreateAddress | controllers/addressController.js:24-53 | A failed schema gives 400 with no write. Otherwise the row is created with a fresh id and the answer is 201. There is still at most one default per user, and other users' rows are untouched. |
| Addresses.AddressBook.UpdateAddress | controllers/addressController.js:55-79 | 400 when the schema fails, else 404 for a row the caller does not own, both without a write. Otherwise the table becomes `UpdateRows`: the conditional unset, then the update. At most one default per user remains. |
| Addresses.AddressBook.DeleteAddress | controllers/addressController.js:81-107 | 404 for a row the caller does not own. Otherwise the table becomes `DeleteRows`: the row goes, and when it was the default the latest remaining row is promoted. At most one default per user remains. |
| Addresses.AddressBook.SetDefaultAddress | controllers/addressController.js:109-128 | 404 for a row the caller does not own. Otherwise the chosen row is the caller's only default, and other users' rows are untouched. The write is the corrected one (see Findings). |
| Addresses.AddressBook.GetAddresses | controllers/addressController.js:12-22 | The listing is a permutation of the caller's rows, ordered default first and then newest first; it changes nothing. |

## Left out

- **Money** is modelled with real numbers. The DECIMAL(15,2) columns' rounding and the floating-point arithmetic of `calculateSalePrice`, including `parseFloat` and `NaN`, are not modelled.
- **Numbers above 2^53**: `parseInt` works on unbounded integers here, so the loss of precision of IEEE doubles is not modelled.
- **Transactions, concurrency and raw SQL**:
  - Each request is processed in one piece, and a rollback after an error inside a transaction is not modelled.
  - The SQL text that `Sequelize.literal` builds from the promotion id and discount value is modelled by its meaning, not as text.
- **External clients** are replaced by data: the Sequelize ORM, the MinIO/RustFS client (`putObject`, `removeObject`), `JSON.parse` and `process.env`. Console logging is left out.
- **Error paths** that end in status 500 (storage failures, database errors) are not modelled.
- **Request validation**: type validation beyond what a field's Dafny type gives is not modelled. Joi's conversion of strings to numbers, dates and booleans, its rejection of unknown keys, and non-integer `product_id` values are all left out. Lengths count characters, not UTF-16 code units.
- **Promotions.NeedRecalculate**: compares `discount_value` as a number, as the code reads. The stored DECIMAL column actually arrives as a string, so the strict `!==` against the request's number is true for every update that carries a discount value. In practice every successful update recomputes prices.
- **Scheduling**: the reconciler ignores `is_active` and the start and end dates, as the controller does. Nothing schedules promotions by date.
- **Handlers out of scope**: `getCart`, `getPromotions` and `getPromotion` (read-only listings with joins) and `utils/minio.js` are not part of this model. The JSON bodies the handlers answer with are not modelled, only their status codes and writes.
- **Addresses.LatestOf**: on equal creation times the database's choice is not specified. The model takes the first such row in table order.
- **Addresses.SortForListing**: rows with equal flag and creation time may come in any order in the database. The model fixes one.

- Carts.AddLines: stores the normalized variant id on insert, the corrected behaviour of the Findings row. The source at controllers/cartController.js:58-63 stores the raw `product_variant_id`, so for `product_variant_id: 0` it inserts 0 (most likely refused by the foreign key to ProductVariant, giving a 500). The as-written insert is `Carts.AddLinesAsWritten`.
- Carts.Cart.AddToCart: runs `Carts.AddLines`, the corrected insert, so it does not reproduce the raw variant id 0 or the 500 the source would likely answer with.
- Addresses.AddressBook.SetDefaultAddress: writes the flag unconditionally (`Addresses.SetDefaultRows`), the corrected behaviour of the Findings row. As written, the source leaves the caller with no default when the chosen row was already the default; `Addresses.SetDefaultRowsAsWritten` and `Addresses.SetDefaultAsWrittenLosesDefault` capture that.
- Pagination.QueryParam: query values are strings only. Express's query parser can also give arrays and objects (`?page=2&page=3` gives `["2", "3"]`, which `parseInt` reads through its text "2,3" as 2); those are not modelled.

## Findings

| source | as written | input that shows it | evidently intended | confidence | as-written member | corrected member |
|---|---|---|---|---|---|---|
| utils/helper.js:21 | `calculateSalePrice(originalPrice)` reads `product.promotion`, but `product` is neither a parameter nor defined in the module | any call, e.g. `calculateSalePrice(100)` with no global `product` | the product (or its promotion) is passed in, and the sale price computed from it | high, not executed | Helper.SalePriceAsWrittenThrows | Helper.CalculateSalePrice |
| controllers/cartController.js:51-62 | the lookup uses `product_variant_id \|\| null`, but the insert stores the raw `product_variant_id` | two adds of product 3 with `product_variant_id: 0` leave two lines whose variant is 0, neither found by the lookup for `null` | the insert stores the same normalized variant id the lookup uses, so a repeated add merges | low (0 is not a real variant id, and the foreign key to ProductVariant at associations.js:86 would most likely refuse the insert with a 500 instead), not executed | Carts.DuplicateLineAsWritten | Carts.RepeatedAddMerges |
| controllers/addressController.js:111-122 | the row is loaded before the bulk unset, so `address.is_default = true` is no change when it was already the default, and `save()` writes nothing | a user whose only address (the default) is chosen as default again ends with no default address | the chosen address is the user's only default afterwards | medium, not executed | Addresses.SetDefaultAsWrittenLosesDefault | Addresses.SetDefaultMakesOnlyDefault |
