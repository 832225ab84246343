# vef2-hopverkefni1 web shop backend, modelled in Dafny

This project models the core logic of the Express/PostgreSQL web shop backend "vef2-hopverkefni1". It covers:

- **Paging and updates (`db.js`).** `paged` cleans the requested `limit`/`offset`, numbers the `LIMIT`/`OFFSET` placeholders after the caller's parameters, and builds the `self`/`next` links of a page. `conditionalUpdate` turns sparse field/value arrays into one `UPDATE … SET … WHERE id = $1`.
- **Cart and orders (`api/cart.js`).** An `Orders` row with `is_order = false` is its owner's cart, and `POST /cart` creates it on demand. A cart line is addressed by its 1-based position in the unordered `Order_items` result. Totals are `Σ price × quantity`, priced from the product table when they are read. Checkout sets `is_order` on every order the user owns. Order listings and order details are limited to their owner unless the caller is an admin.
- **User validation (`validation.js`).** `validateUser` applies a fixed list of length rules to username, password and email, with a patch mode. Whether the username is already registered is a boolean input.
- **Users (`users.js`).** The id and row-count guards of `findById`/`findByUsername`, and the field/value arrays that `updateUser` hands to `conditionalUpdate`.
- **Products and categories (`api/products.js`).**
  - The listing's WHERE clause, query-string suffix and parameters, built from `category`/`search`.
  - The integer-id guards.
  - The `isset` arrays of the two PATCH routes.
  - The 404 on an empty category page.

The project has one module per source file, plus four support modules:

| module | contents |
|---|---|
| `Wrappers` | `Option`. |
| `Http` | A reply: a status with a body, or a thrown error. |
| `Js` | The JavaScript values and coercions the code depends on: `Number(string)`, `Number.isInteger`, `parseInt(s, 10)`, truthiness, `== null`, `String(n)`. |
| `Seqs` | An order-preserving `Filter`, the shape of both `Array.prototype.filter` and a `WHERE` clause. |

`Db`, `Users` and `Products` take the database as a parameter `exec: Statement -> seq<Row>`: a statement is its SQL text and bound values, and `exec` gives the rows that statement returns. `Cart` instead keeps the three tables it touches in a `Store` class:

- `orders: seq<OrderRow>`
- `items: seq<ItemRow>`
- `products: map<int, Product>`

Each route is a method returning a status and a body. A table is a sequence of rows, and a `SELECT` without `ORDER BY` returns them in sequence order. `Store.Valid()` is the invariant every state-changing route preserves:

- ids are unique and below the next `serial` value;
- no user has two carts.

A JavaScript error thrown by the code becomes the `Thrown` reply. Examples are reading `.id` from an empty result, a product row missing during pricing, and the length check of `conditionalUpdate`.

Behaviour of the code that the model keeps:

- Cart lines are selected without `ORDER BY`.
- Checkout sets only `is_order`; it writes no other column.
- The order list is a plain query, not a paged one.
- `quantity` is checked only for being an integer; its sign is not checked.
- `categoryPatchRoute` validates its body with `validateProduct`.
- Link values are not URL-encoded. `offset`, `limit`, `category` and `search` go into the `self`/`next` links as raw text, so a value holding `&` does not read back whole.

## Model

| member | source | states |
|---|---|---|
| Js.MinusOne | api/cart.js:84 | `x - 1` is an integer exactly when `x` is, and then has the value one less. |
| Js.StringToNumberOfInt | db.js:40-41 | `Number` of an integer's decimal text gives that integer back. |
| Js.ParseIntOfInt | db.js:50 | `parseInt(String(i), 10)` gives `i` back. |
| Js.IntToStringInjective | db.js:50 | Distinct integers have distinct decimal texts. |
| Js.IntegerTextIsIntegerLike | users.js:36 | The decimal text of any integer passes the `Number.isInteger(Number(id))` guard. |
| Js.NoSeparatorInInt | db.js:59-63 | The decimal text of an integer never holds `&`, so it cannot break a link's query string. |
| Db.CleanBound | db.js:40-44 | A cleaned bound is `Number(raw)` when that is a positive integer, else the fallback. |
| Db.PagedStatement | db.js:36-46 | The statement is the query plus ` LIMIT $(n+1) OFFSET $(n+2)`, where `n` is the number of caller values. Its parameters are the caller's values followed by the clean limit and offset, bound to exactly those placeholders. |
| Db.Paged | db.js:33-71 | `paged` returns the following. `limit` is the clean limit, always at least 1; `offset` is the clean offset. `items` is exactly the rows of the paged statement. `self` is the link built from the raw offset, raw limit and `qString`. A `next` link is present iff at least 10 rows came back; it carries `parseInt(offset) + 10`. |
| Db.LinkRoundTrip | db.js:59-63 | Reading `offset` and `limit` back from a link gives the raw text it was built from, when that text has no `&`. |
| Db.LinkSuffixParam | db.js:59-63 | Any other parameter of a link is read from the `qString` suffix alone. |
| Db.CleanBoundOfPositive | db.js:43-44 | A positive integer written in decimal is used as it is. |
| Db.CleanBoundOfNonPositive | db.js:43-44 | Zero and negative integers fall back to the default. |
| Db.CleanBoundRejectsNegative | db.js:43 | `limit=-5` gives 10. |
| Db.CleanBoundRejectsText | db.js:43 | `limit=abc` gives 10. |
| Db.CleanBoundRejectsFraction | db.js:43 | `limit=2.5` gives 10. |
| Db.NextOffsetText | db.js:50 | The next offset is `NaN` when `parseInt(offset)` fails, and its text never holds `&`. |
| Db.NextOffsetRoundTrip | db.js:50 | `parseInt` of the next offset gives `parseInt(offset) + 10`. |
| Db.Link | db.js:52-60 | A link starts with the host, the slug's path before `?`, and `?`. It ends with `qString`. |
| Db.LinkOffset | db.js:59-60 | Reading `offset` back from a link gives the offset text it was built from, when that text has no `&`. |
| Db.NextLinkOffset | db.js:50-60 | Reading `offset` back from a link built with the next offset gives `parseInt(offset) + 10`. |
| Db.NextLinkAdvancesOffset | db.js:50-60 | On a full page, reading `offset` back from the `next` link gives `parseInt(offset) + 10`, whatever the limit. |
| Db.SmallLimitHasNoNext | db.js:57-64 | When the database honours LIMIT, a clean limit below 10 never yields a `next` link. |
| Db.FirstRow | users.js:103 | `result.rows[0]` is present iff the result has a row, and is then the first row. |
| Db.ConditionalUpdate | db.js:73-99 | The outcome is one of three. Nothing to update iff no field is a string. A throw iff the string-field and string/number-value counts differ. Otherwise the i-th clause is `field_i = $(i+2)`, the id is bound to `$1`, and the parameters are the id followed by the filtered values, in order. The statement is `UPDATE <table> SET <clauses joined by ", "> WHERE id = $1 RETURNING *`. |
| Db.AlignedArraysAgree | db.js:74-83 | Arrays built pairwise never trip the length check. |
| Db.UnpairedValueThrows | db.js:74-83 | Filtering is per array: a string field beside a boolean or null value throws. |
| Validation.IsEmpty | validation.js:3 | `isEmpty` holds exactly for `''`, `false`, `NaN` and `0`. |
| Validation.ValidateUser | validation.js:5-44 | Each of the four messages appears iff its rule fails under its guard. The password and email rules run when not patching, for a truthy value, or for `isEmpty`. No message appears twice. Messages come in username, password, email order. Patch mode never reports a username message. |
| Validation.MessagesPresent | validation.js:5-44 | Each rule's message is in the list iff that rule fired, and no other message is. |
| Validation.MessagesOrdered | validation.js:5-44 | The list repeats no message, and lists username, password and email messages in that order. |
| Validation.CheckedUnlessNullish | validation.js:3-34 | The guard `!patch \|\| v \|\| isEmpty(v)` holds iff not patching or `v` is neither null nor undefined. |
| Validation.PatchWithoutFieldsIsValid | validation.js:25-43 | A patch without password and email is always valid. |
| Validation.TwoUsernameMessages | validation.js:9-22 | A malformed, already registered username outside patch mode gets two separate username messages, in that order. |
| Validation.FalsyPasswordIsChecked | validation.js:25-31 | A present but falsy password is checked in patch mode, and fails. |
| Users.SingleRow | users.js:16-20 | A row is returned iff the result has exactly one row, and it is that row. |
| Users.FindByUsername | users.js:11-21 | A user is found iff the username query returns exactly one row. |
| Users.FindById | users.js:35-49 | A non-integer id gives null. Otherwise a user is found iff the id query returns exactly one row. |
| Users.FindByIdRejectsBeforeQuery | users.js:36-38 | A rejected id gives null, whatever the table holds. |
| Users.UserFields | users.js:73-78 | Each slot holds its column name iff that argument is a string, number or boolean, else null. |
| Users.AdminValue | users.js:87-95 | The admin value is a string iff admin is set, else null. It is the sanitised admin, or `'false'` when that is `''`, so it is never `''`. |
| Users.UserValues | users.js:80-95 | The password value is `hash(password)` only for a truthy password, else null. The admin value is a string iff admin is set, and is never `''`. |
| Users.BuildValues | users.js:80-95 | The `values` array built by the assignments and the in-place overwrite of slot 3 is the one `UserValues` describes, so it carries the properties proved about `UserValues`. |
| Users.UpdateUser | users.js:66-104 | A non-integer id gives null. Otherwise the result follows `conditionalUpdate` on the two arrays: null when nothing is set, the thrown error, or the first updated row. |
| Users.UpdatedColumns | users.js:71-78 | The updated columns are exactly the arguments that are a string, number or boolean, in the fixed order username, password, email, admin. |
| Users.UpdatedValues | users.js:80-95 | The bound values are: the sanitised username, the hashed password (only when truthy), the sanitised email and the admin value, each only when present. |
| Users.NothingToUpdateIff | users.js:73-101 | Nothing is updated iff none of the four arguments is a string, number or boolean. |
| Users.ThrowsIff | users.js:73-97 | The length check throws iff something is set and the password is set but falsy, or truthy but not set. |
| Users.EmptyPasswordThrows | users.js:73-91 | An empty-string password makes the update throw. |
| Users.FullUpdateClauses | users.js:73-97 | A full update sets username, password, email and admin from `$2` to `$5`. |
| Users.FullUpdateParams | users.js:80-97 | A full update binds the id, then the four new values in column order. |
| Products.ProductsFilter | api/products.js:30-48 | Neither filter gives an empty filter, suffix and value list. A category is bound first and a search pattern `%s%` last. There are as many values as filters given. The suffix is empty or starts with `&`. |
| Products.ProductsRoute | api/products.js:26-55 | The route replies 200 with the page `paged` makes of `SELECT * FROM Products <filter> ORDER BY created desc`, using the filter's values and suffix. |
| Products.ListingBindings | api/products.js:35-53 | The category binds `$1`, and the search pattern binds the placeholder after it. LIMIT and OFFSET bind the next two placeholders. |
| Products.ListingLinksKeepFilter | api/products.js:37-53 | Reading `category` and `search` back from a listing link gives exactly the filter used, absent ones included, when no value has an `&`. |
| Products.SearchWithSeparatorIsCut | api/products.js:37-41 | A search text `before&after` reads back from the link as `before` alone, because the suffix is not URL-encoded. |
| Products.ProductRoute | api/products.js:57-71 | The route answers 200 with the first row iff the id is integer-like and the look-up finds a row, else 404 "Product not found". |
| Products.ProductDeleteRoute | api/products.js:156-172 | The route answers 200 "Product deleted" under the same condition, else 404. |
| Products.RejectedIdIgnoresTable | api/products.js:57-62 | A non-integer id answers 404 whatever the table holds. |
| Products.StoredProductFound | api/products.js:60-70 | The id guard never rejects the decimal text of an integer: when the row is stored, the route answers 200 with it. |
| Products.PatchArraysAligned | api/products.js:116-130 | A field name is present exactly where its value is, so the two filtered lengths agree. |
| Products.PatchFields | api/products.js:118-123 | Each slot holds its column name iff that field is a string or number, else null. |
| Products.PatchValues | api/products.js:125-130 | Each slot holds the sanitised field iff that field is a string or number, else null. |
| Products.PatchColumns | api/products.js:118-123 | The patched columns are exactly the string or number fields, in the order name, price, descr, category. |
| Products.ProductPatchRoute | api/products.js:73-141 | A bad id or a missing row gives 404. Validation messages give 400. Otherwise the route answers 201 with the updated row iff some field is a string or number, else 400 "Nothing to patch". It never throws the length error. |
| Products.PatchParams | api/products.js:125-132 | The patch binds the id to `$1`, then the sanitised value of each given field, in order. |
| Products.CategoryRoute | api/products.js:199-209 | An empty page of categories is 404 "Categories not found", else 200 with the page. |
| Products.CategoryPagePastEnd | api/products.js:204-206 | An empty table gives 404 for every offset and limit. |
| Products.CategoryPatchRoute | api/products.js:236-278 | A bad id or a missing category gives 404. Validation messages then give 400 with those messages. Otherwise the route answers 400 "Category name already exists" when the name check finds exactly one row. Else it answers 201 iff the name is a string or number, and 400 "Nothing to patch" if not. The update binds the id and the sanitised name. |
| Products.CategoryUpdate | api/products.js:255-271 | Nothing is updated iff the name is not a string or number; otherwise the name is bound to `$2`. |
| Products.CategoryDeleteRoute | api/products.js:280-296 | The route answers 200 "Category deleted" iff the id is integer-like and the category exists, else 404. |
| Cart.OpenCarts | api/cart.js:10 | The cart query selects exactly the user's rows that are not orders. |
| Cart.OrdersOf | api/cart.js:91 | The order query selects exactly the user's rows, cart or not. |
| Cart.LinesOf | api/cart.js:16 | The line query selects exactly the lines of that order. |
| Cart.VisibleLines | api/cart.js:230-242 | A line is shown iff it belongs to the order and the caller is an admin or owns the order. |
| Cart.VisibleOrders | api/cart.js:207-211 | An order is listed iff it is finalized and the caller is an admin or its owner. |
| Cart.Checkout | api/cart.js:193-199 | Every order of the user ends finalized, and no row changes anything else. No row is un-finalized. |
| Cart.BillOf | api/cart.js:18-36 | There is a bill iff every line's product exists. It has one entry per line, in row order, with the product's current name and price and the line's quantity. Its total is `Σ price × quantity`. |
| Cart.TotalAppend | api/cart.js:18-25 | The total of two runs of lines is the sum of their totals. |
| Cart.TotalReprice | api/cart.js:20-25 | Changing a product's price moves a total by the price difference times the units of that product. |
| Cart.LineIndex | api/cart.js:84-89 | A position is accepted iff `Number(position) - 1` is an integer, and then gives that value. |
| Cart.LineIndexOfInt | api/cart.js:84 | The text of `n` addresses line `n - 1`. |
| Cart.FirstPosition | api/cart.js:84 | Position "1" addresses offset 0. |
| Cart.Store.PriceLines | api/cart.js:18-36 | The pricing loop yields exactly `BillOf` of the lines: the entries in row order and the total `Σ price × quantity`. |
| Cart.Store.CartRoute | api/cart.js:5-39 | A user without a cart gets 404 "Cart not found". Otherwise the route answers 200 with the bill of the cart's lines, or throws when a product row is missing. |
| Cart.Store.OpenCart | api/cart.js:53-76 | A cart row is inserted only when the user has none, taking the next order id, which then advances by one. Afterwards the user has exactly one cart, and its id is returned. |
| Cart.Store.InsertLine | api/cart.js:68-77 | The new line takes the next item id, which then advances by one, and is appended. It becomes the last line of its order. |
| Cart.Store.CartPostRoute | api/cart.js:41-80 | Validation messages give 400 and change nothing. Otherwise the user's cart is created if missing, exactly one line is added to it, and the route answers 200 with that line. The item id counter advances by one, and the order id counter advances only when a cart was created. |
| Cart.Store.CartLineRoute | api/cart.js:82-115 | A rejected position, a user without orders, or a position outside the lines of the user's first order (cart or not) gives 404 "Cart line not found". Otherwise the route answers with that line's entry. |
| Cart.Store.CartLinePatchRoute | api/cart.js:117-152 | A non-integer quantity gives 404 and no change. A rejected position or one outside the lines of the user's first order gives 404 and no change. Otherwise exactly the row at that offset of the whole `Order_items` table gets the new quantity, and nothing else changes. |
| Cart.Store.CartLineDeleteRoute | api/cart.js:154-183 | A rejected or out-of-range position gives 404 and no change. Otherwise exactly the row at that offset of the whole table is removed. |
| Cart.Store.OrderPostRoute | api/cart.js:185-202 | Without a cart the route answers 404 and changes nothing. Otherwise every order of the user is finalized, and the route answers with the user's first order. |
| Cart.Store.OrdersRoute | api/cart.js:204-218 | An admin sees all finalized orders, anyone else only their own, newest first. An empty list is 404 "Orders not found". |
| Cart.Store.OrderRoute | api/cart.js:220-273 | A non-integer id, a missing order and a foreign order (for a non-admin) all give the same 404 "Order not found". Otherwise the route answers with the order's bill. |
| Cart.AtMostOneOpen | api/cart.js:75-76 | With one cart per user, the cart query finds at most one row. |
| Cart.NoCartNoOpenRow | api/cart.js:53-54 | An empty cart query means the user has no open order row. |
| Cart.OpenCartIsOrder | api/cart.js:188-201 | A user with a cart has an order for checkout to return. |
| Cart.CheckoutKeepsOrdersOf | api/cart.js:193-201 | Checkout keeps the number of the user's orders. |
| Cart.CheckoutClosesCart | api/cart.js:193-199 | After checkout the user has no cart. |
| Cart.CheckoutLeavesOthers | api/cart.js:193-199 | Checkout leaves every other user's cart as it was. |
| Cart.CheckoutKeepsOneCart | api/cart.js:193-199 | Checkout keeps one cart per user. |
| Cart.CartAdded | api/cart.js:53-66 | A cart inserted for a user without one becomes that user's only cart. Ids stay fresh. |
| Cart.LineAdded | api/cart.js:68-77 | An appended line becomes the last line of its order. Ids stay fresh. |
| Cart.RemoveKeepsIds | api/cart.js:170-180 | Deleting a line keeps ids unique and fresh. |
| Cart.GlobalOffsetHitsOtherOrder | api/cart.js:133-149 | Suppose another order's line is stored first. The position of the user's first line is in range of the user's lines, but the same offset of the whole table is the other order's line. |

## Left out

- The `pg` client (`query` in db.js): connecting, ending and error logging are I/O. The database is the `exec` parameter or the `Store`.
- SQL text and JSON serialisation are modelled only by their effect and status codes, except the placeholder numbering of `paged`/`conditionalUpdate`.
- PostgreSQL casts bound text to column types (for example a quantity of `"1e1"` or an id of `"1.0"`). The model does not cast; a quantity is stored as the integer `Number` gives.
- In the category name check, a null name gives `name = NULL`, which SQL never matches. The model leaves the row count to `exec`.
- The database schema (foreign keys, defaults other than `is_order = false` and `serial` ids) is not part of this model.
- Interleaved requests: every query opens its own connection and there are no transactions.
- `bcrypt.hash`, `bcrypt.compare` and `xss` are uninterpreted functions. `comparePasswords`, `findByEmail` and `createUser` are not part of this model.
- `validateCart`, `validateProduct` and `validateCategory` are imported but not defined in validation.js. Their message list is an input. As the files stand, each call throws a TypeError. `POST /cart` throws before any query, and the non-file branch of product PATCH and category PATCH throw after the id and row checks. The model describes the routes as if the validators existed.
- auth.js, setup.js, api/index.js and api/users.js are not part of this model. They cover passport/JWT, seeding with random data, a static endpoint list and thin route glue.
- Cloudinary upload, multer and `picRoute` (the file branch of `productPatchRoute`): network and file I/O.
- The `updated = CURRENT_TIMESTAMP` UPDATE after a product patch: a clock. The unawaited DELETE of `productDeleteRoute`: fire-and-forget.
- `createProductRoute` and `createCategoryRoute` are not part of this model: they are an INSERT after validation that is not defined.
- JavaScript numbers are exact reals. IEEE-754 rounding, `-0` and string lengths in UTF-16 code units are not modelled. `Number` trims ASCII white space, U+00A0, U+FEFF, U+2028 and U+2029. It does not trim U+1680, U+2000–U+200A, U+202F, U+205F or U+3000. Objects and arrays convert to NaN.
- Express query parsing (repeated keys giving arrays, percent-decoding) is not modelled; query values are plain strings.
- Db.NextLinkAdvancesOffset: stated only for a limit that was given in the request. An absent limit gives the default text "10".
- Cart.Store.CartPostRoute: `productId` and `quantity` are integers. The model assumes what `validateCart` accepts and does not model the database's casting.
- Cart.Store.OrderPostRoute: the row returned is the user's first order in row order. PostgreSQL does not specify the order of `RETURNING` rows.
- Row order is an assumption about PostgreSQL, which leaves the order of an unordered `SELECT` unspecified. The model assumes that such a `SELECT` returns rows in insertion order and that an `UPDATE` leaves a row in place. Cart.Store.CartLineRoute, Cart.Store.CartLinePatchRoute, Cart.Store.CartLineDeleteRoute, Cart.Store.OrderPostRoute and Cart.GlobalOffsetHitsOtherOrder depend on this.
- Cart.Store.OrdersRoute: `created` is taken to increase with insertion order, so `ORDER BY created desc` is reverse insertion order.
