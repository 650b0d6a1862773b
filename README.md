# Retail backend: a Dafny model

This project models the request handlers of a small Express/Mongoose
shopping backend, and verifies properties of the model. The handlers covered
are the cart, order placement, product rating, deal of the day, the admin
catalog and order operations, and the earnings analytics. The User schema's
validators and defaults are modelled too.

The document store is a `Store` class with three fields:

- `products`, a map from product id to product document;
- `users`, a map from user id to user document;
- `orders`, a sequence in which an order's id is its index.

Each handler is a module-level method. The handlers that read or change
documents take the store as a parameter `db`. The analytics methods take the
sequence of stored orders, and deal of the day takes the store together with
the catalog listing that the store returns. A handler's postcondition states
the new store and the response in terms of pure functions (`AddLine` and
`RemoveLine` for carts, `Reserve` for the stock reservation loop, `Upsert`
for ratings, `TotalRevenue` and `CategoryRevenue` for earnings). Lemmas then
prove what the application promises about those functions.

Modules:

- `Wrappers`: `Option` and `Result`.
- `Models`: the Product, User, Order and cart-line documents, the error
  responses and their HTTP status codes, and the `Store` class.
- `UserSchema`: models/user.js. This covers `trim`, the required fields, the
  email regular expression, the password validator, and the defaults.
- `UserRoutes`: routes/user.js.
- `ProductRoutes`: routes/product.js.
- `AdminRoutes`: routes/admin.js.

The caller's id, which the token middleware puts in `req.user`, is an
explicit `userId` parameter. The clock reading of order-product
(`new Date().getTime()`) is a parameter `now`. The id the store gives a new
product is a parameter `newId`.

The model follows the code as written, defects included. One example is an
order-product request with one line the stock does not cover. The code answers 400 for that line and still stores the
order without it, and the model stores it too. A second uncovered line makes
the handler throw, because its 400 tries to set a header on a response that
was already sent. The `catch` only logs, so the loop stops there, the cart is
kept and no order is made. The model does the same.

## Model

| member | source | states |
|---|---|---|
| Models.HttpStatus | routes/user.js:13-29 | The three validation errors answer 400. Unknown product, unknown user and product-not-in-cart answer 404. A null document dereferenced by change-order-status and a refused insert answer 500. A throw whose `catch` only logs sends no response. The same codes are sent at routes/user.js:100 (not in cart), routes/product.js:36-48 (rating validation and unknown product), and routes/admin.js:24 and routes/admin.js:72 (the 500s of add-product and change-order-status). |
| Models.Missing | routes/user.js:13 | `!id` holds for an absent id and for the empty string. |
| UserSchema.LeadingBlanks | models/user.js:9 | Counts the leading whitespace run. The next character, if any, is not whitespace. |
| UserSchema.ContentEnd | models/user.js:9 | Finds where the trailing whitespace run begins. The character before it, if any, is not whitespace. |
| UserSchema.Trim | models/user.js:9 | The result is the infix of the input between its leading and trailing whitespace runs. It neither starts nor ends with whitespace. It is empty exactly when the input is blank. |
| UserSchema.TrimIdempotent | models/user.js:9 | Trimming a trimmed value changes nothing. |
| UserSchema.MatchesEmailRegex | models/user.js:17 | The regular expression matches when the string splits at some '@' and some later '.' into three non-empty runs over their character classes, the last at least two ASCII letters long. |
| UserSchema.ValidEmail | models/user.js:16-19 | The validator's check, made at the first '@' and the last '.'. |
| UserSchema.IndexOf | models/user.js:16-19 | Returns the first occurrence of a character, or none when the character is absent. |
| UserSchema.LastIndexOf | models/user.js:16-19 | Returns the last occurrence of a character, or none when the character is absent. |
| UserSchema.RegexMatchIsValidEmail | models/user.js:16-19 | In any match, the '@' is the first '@' and the '.' is the last '.', so the validator accepts the string. |
| UserSchema.ValidEmailMatchesRegex | models/user.js:16-19 | The validator accepts exactly the strings the regular expression matches: a non-empty local run, '@', a non-empty domain run, '.', and at least two ASCII letters. |
| UserSchema.ValidEmailHasOneAt | models/user.js:16-19 | An accepted email contains exactly one '@'. |
| UserSchema.Utf16Length | models/user.js:29 | JavaScript's `length`: at least the number of characters and at most twice it. A character beyond U+FFFF counts twice. |
| UserSchema.Utf16LengthInBmp | models/user.js:29 | Over the Basic Multilingual Plane, `length` is the number of characters. |
| UserSchema.PasswordValidator | models/user.js:28-30 | Returns `true` exactly when `length` exceeds 6, which is certainly the case with more than 6 characters. |
| UserSchema.AstralPasswordIsLongEnough | models/user.js:29 | Four characters beyond U+FFFF have `length` 8, so the validator returns `true`. |
| UserSchema.PasswordValidatorNeverRejects | models/user.js:28-30 | The validator's result always passes, because a value with `length` 6 or less gets a non-empty message string. |
| UserSchema.SchemaErrors | models/user.js:6-33 | Validation fails for `name` or `password` exactly when the field is blank. It fails for `email` exactly when the trimmed email is not accepted. |
| UserSchema.NewUser | models/user.js:5-51 | The document saves exactly when name, email and password all validate. A saved document holds the trimmed fields, `address` '', `type` 'user' and an empty cart. A failure names at least one path. |
| UserRoutes.FirstLine | routes/user.js:32-34 | `find` on the cart returns the first line holding the product, or none when no line does. |
| UserRoutes.FirstLineIs | routes/user.js:32-34 | The first line holding the product is the one `find` returns. |
| UserRoutes.AddLine | routes/user.js:36-42 | After add-to-cart the cart holds the product. A cart whose lines are all positive stays that way. |
| UserRoutes.AddToExistingLine | routes/user.js:32-38 | Adding a product the cart holds raises its first line by exactly 1. The cart length and every other line are unchanged. |
| UserRoutes.AddNewLine | routes/user.js:39-42 | Adding a product the cart lacks appends `{product, 1}` at the end, and the existing lines stay. |
| UserRoutes.WithoutProduct | routes/user.js:94-96 | The filter keeps exactly the lines of other products, and none of the removed product. |
| UserRoutes.WithoutProductConcat | routes/user.js:94-96 | The filter keeps the remaining lines in their relative order. |
| UserRoutes.WithoutAbsentProduct | routes/user.js:94-96 | Filtering out a product the cart lacks changes nothing. |
| UserRoutes.RemoveLine | routes/user.js:84-101 | There is no result exactly when the cart lacks the product, which is the 404. A cart whose lines are all positive stays that way. |
| UserRoutes.RemoveDecrements | routes/user.js:88-90 | When the first line holds more than 1, it loses exactly 1 and stays in place. The other lines are unchanged. |
| UserRoutes.RemoveDropsProduct | routes/user.js:93-96 | When the first line would reach 0 or less, every line of the product is removed. |
| UserRoutes.AddThenRemove | routes/user.js:36-42 | Adding a product the cart lacks and then removing it gives back the original cart. |
| UserRoutes.AddTimesAppends | routes/user.js:36-42 | Adding a product the cart lacks n times, for n >= 1, appends one line with quantity n. |
| UserRoutes.RemoveTimesLast | routes/user.js:84-97 | Removing n times a product whose only line is the last one, with quantity n, gives back the rest of the cart. |
| UserRoutes.AddRemoveTimes | routes/user.js:36-97 | n adds followed by n removes of a product the cart lacked restore the original cart. |
| UserRoutes.AddToCart | routes/user.js:8-57 | A missing id gives 400. Then an unknown product gives 404, then an unknown user gives 404, and nothing changes in those cases. Otherwise the user's cart becomes `AddLine` of the catalog product. |
| UserRoutes.RemoveFromCart | routes/user.js:60-115 | The same checks apply in the same order. A product the cart lacks gives 404 and changes nothing. Otherwise the cart becomes `RemoveLine` of it. |
| UserRoutes.SaveUserAddress | routes/user.js:117-128 | The user's address is overwritten and nothing else changes. For an unknown user the handler throws, changes nothing and sends no response. |
| UserRoutes.OrdersOf | routes/user.js:164-173 | Returns exactly the stored orders whose `userId` is the caller's. |
| UserRoutes.OrdersOfConcat | routes/user.js:166 | The query distributes over concatenation, so it keeps the store order and every repeated order. |
| UserRoutes.OrdersOfAppend | routes/user.js:166 | A newly stored order joins the caller's list at the end exactly when it is theirs. |
| UserRoutes.Step | routes/user.js:136-143 | One iteration. A null lookup throws. A covered line lowers the stock by the requested quantity and appends `{product, quantity}`. The first uncovered line is skipped, and a second one throws. |
| UserRoutes.Reserve | routes/user.js:135-144 | The loop: `Step` over the request lines in order, stopping at the first throw. |
| UserRoutes.ReservedOfAppend | routes/user.js:139 | An appended line adds its quantity to the total reserved for its product. |
| UserRoutes.ReserveFrame | routes/user.js:135-144 | The loop changes only product quantities, and keeps each stored product under its own id. Each order line holds a copy of its catalog product, differing only in quantity. |
| UserRoutes.TakeKeepsAccounting | routes/user.js:137-139 | One reserved line keeps each product's stock equal to its old stock minus what the lines reserve of it. |
| UserRoutes.ReserveAccounting | routes/user.js:137-139 | Each product's new stock is its old stock minus what the order lines reserve of it. |
| UserRoutes.ReserveKeepsStockNonNegative | routes/user.js:137-138 | A line is reserved only when the stock covers it, so a non-negative stock stays non-negative. |
| UserRoutes.NoOversell | routes/user.js:137-139 | No order reserves more of a product than was in stock. |
| UserRoutes.ReserveLinesFollowRequest | routes/user.js:135-144 | Order line j comes from request line taken[j], with the same id and quantity. The taken indices increase, so the order lines are a subsequence of the request. |
| UserRoutes.ReserveCoversRequest | routes/user.js:135-144 | Every processed request line is in exactly one of `taken` and `skipped`, and neither holds a later index. At most one line is skipped, so a skipped line is left out of the order. The handler throws at a product missing from the catalog or at a second uncovered line, and the loop ends there. |
| UserRoutes.SkippedLineUncovered | routes/user.js:137-142 | The skipped line is one the stock did not cover: when the loop reached it without having thrown, its product was in the catalog with less than the requested quantity. |
| UserRoutes.ReserveFailurePersists | routes/user.js:136-143 | After the handler throws, no later request line is processed. |
| UserRoutes.RepeatedIdSeesDecrementedStock | routes/user.js:136-138 | A repeated id is checked against the stock already decremented: with 5 in stock, requests for 3 and then 3 reserve only the first. |
| UserRoutes.WholeStockScenario | routes/user.js:137-139 | A request for exactly the stock reserves all of it. |
| UserRoutes.OutOfStockScenario | routes/user.js:141-143 | A single uncovered line is skipped and the stock is unchanged. |
| UserRoutes.SecondOutOfStockThrows | routes/user.js:141-143 | With A at 0 and C at 10, the request A 1, A 1, C 1 throws at its second line. C is never reserved and stays at 10. |
| UserRoutes.OrderProduct | routes/user.js:130-162 | The loop leaves the catalog and the skipped line as `Reserve` computes them. If the handler throws, at a null product or user lookup or at a second uncovered line, the decrements already saved stay, the cart is kept, no order is created and no further response is sent. The 400 for the skipped line, if there is one, was already sent. Otherwise the cart is emptied and the order is stored with the reserved lines, the caller's `totalPrice`, `address` and id, and status 0. |
| ProductRoutes.WithoutFirstRating | routes/product.js:59-65 | The ratings list after the scan that splices out the first entry of the user. |
| ProductRoutes.Upsert | routes/product.js:59-73 | The ratings after a successful rating: the scan, then the new `{userId, rating}` pushed at the end. |
| ProductRoutes.WithoutFirstRatingCounts | routes/product.js:60-65 | The scan removes one entry of the user if there is one. It removes none of anyone else's and keeps their order. |
| ProductRoutes.WithoutFirstRatingAt | routes/product.js:60-65 | The scan stops at the first entry of the user and splices out exactly that index. |
| ProductRoutes.UpsertCounts | routes/product.js:60-73 | After a rating the user's entry count is unchanged if they had rated, and 1 otherwise. The list length is unchanged, or grows by 1. The new entry is last. |
| ProductRoutes.UpsertKeepsOthers | routes/product.js:60-73 | Every other user's entries are unchanged and keep their relative order. |
| ProductRoutes.UpsertSingleEntry | routes/product.js:60-73 | If the user held at most one entry before, they hold exactly one after: the new value, at the end. |
| ProductRoutes.UpsertKeepsAtMostOne | routes/product.js:60-73 | "At most one entry per user" is preserved. |
| ProductRoutes.RateTwice | routes/product.js:60-73 | Rating r1 and then r2 leaves one entry for the user, holding r2, with the others unchanged. |
| ProductRoutes.RatingSum | routes/product.js:91-96 | The sum of the `rating` fields in order, as the comparator accumulates it. |
| ProductRoutes.RatingSumConcat | routes/product.js:91-96 | The rating sum is additive over concatenation. |
| ProductRoutes.RatingSumBounds | routes/product.js:42 | When every rating lies in [0, 5], the sum lies between 0 and 5 times the number of ratings. |
| ProductRoutes.UpsertSum | routes/product.js:60-73 | Re-rating replaces the user's old value in the sum with the new one. |
| ProductRoutes.WithoutAbsentRating | routes/product.js:60-65 | When the user has no entry, the scan removes nothing. |
| ProductRoutes.UpsertSumFirstRating | routes/product.js:60-73 | A user's first rating adds its value to the sum. |
| ProductRoutes.UpsertInRange | routes/product.js:42-73 | An accepted rating keeps every stored rating in [0, 5]. |
| ProductRoutes.SumRatings | routes/product.js:91-96 | The comparator's accumulator loop computes the rating sum. |
| ProductRoutes.SpliceOutOwnRating | routes/product.js:60-65 | The index scan with `splice(i, 1)` and `break` removes the user's first entry. |
| ProductRoutes.Rejected | routes/product.js:42 | A number gets through exactly when it is finite and lies in [0, 5], so NaN and both infinities are rejected. |
| ProductRoutes.RateProduct | routes/product.js:32-82 | Checked in order: a missing id, a missing rating, and a NaN or out-of-range rating each give 400, then an unknown product gives 404. None of these changes anything. Otherwise the product's ratings become `Upsert` of the new value. |
| ProductRoutes.DealOfTheDay | routes/product.js:83-104 | The listing is the store's whole catalog. An empty catalog gives no product. Otherwise the result is a product of the store's catalog, and no product has a strictly larger rating sum. |
| AdminRoutes.NewProduct | routes/admin.js:10-19 | The new product gets the store's id and no ratings. |
| AdminRoutes.NewProductIgnoresIds | routes/admin.js:10-19 | The body's `id` and `userId` do not affect the product built. |
| AdminRoutes.AddProduct | routes/admin.js:8-27 | The whitelisted product is stored under the new id, and nothing else changes. A taken id is refused. |
| AdminRoutes.DeleteProduct | routes/admin.js:50-60 | Returns the product with the given id, if any. The empty frame leaves the catalog unchanged. |
| AdminRoutes.ChangeOrderStatus | routes/admin.js:62-75 | Sets the order's status to the given value and changes no other field or order. An unknown id throws. |
| AdminRoutes.OrderRevenue | routes/admin.js:83-85 | The sum over an order's lines of quantity times the price copied into the line. |
| AdminRoutes.TotalRevenue | routes/admin.js:82-86 | The sum of the order revenues over a list of orders. |
| AdminRoutes.CategoryRevenue | routes/admin.js:107-120 | A category bucket: the total revenue of the orders the category query returns. |
| AdminRoutes.OrdersWithCategory | routes/admin.js:109-111 | Returns exactly the orders with at least one line of the category. |
| AdminRoutes.TotalRevenueConcat | routes/admin.js:82-86 | Revenue is additive over lists of orders. |
| AdminRoutes.OrderRevenueNonNegative | routes/admin.js:83-85 | Lines with non-negative quantity and price have non-negative revenue. |
| AdminRoutes.CategoryRevenueBounded | routes/admin.js:107-120 | With non-negative lines, every category bucket lies between 0 and the total earnings. |
| AdminRoutes.CategoryRevenueWithoutCategory | routes/admin.js:107-120 | Orders with no line of the category contribute 0. |
| AdminRoutes.CategoryRevenueAppend | routes/admin.js:113-119 | An order with a line of the category adds all of its lines' revenue to the bucket. Any other order adds nothing. |
| AdminRoutes.MixedOrderCountedInBothBuckets | routes/admin.js:107-120 | An order with a Mobiles line and a Books line counts in full in both buckets, so the buckets can add up to more than the total. |
| AdminRoutes.TotalRevenueDependsOnLines | routes/admin.js:82-86 | The total depends only on the orders' lines. |
| AdminRoutes.CategoryRevenueDependsOnLines | routes/admin.js:107-120 | A bucket depends only on the orders' lines. |
| AdminRoutes.StatusDoesNotAffectRevenue | routes/admin.js:64-67 | Changing an order's status changes no earnings figure. |
| AdminRoutes.SumEarnings | routes/admin.js:80-86 | The nested loop computes the sum over orders of the sum over lines of quantity times the stored price. |
| AdminRoutes.FetchCategoryWiseProduct | routes/admin.js:107-121 | The category query followed by the same loop gives the category bucket. With non-negative lines it is bounded by the total. |
| AdminRoutes.Analytics | routes/admin.js:77-101 | The report holds the total and the buckets for exactly Mobiles, Essentials, Appliances, Books and Fashion. With non-negative lines each bucket lies between 0 and the total. |

## Left out

- Authentication and sign-up (routes/auth.js): password hashing, token signing and verification, and the 5-second timeouts are foreign libraries and wall-clock timing. The rest of that file is a thin wrapper over the store.
- The token middleware (middleware/auth.js) and the admin middleware: `req.user` is the `userId` parameter, and admin access is assumed. The admin middleware's file is not part of this model.
- index.js: server and database bootstrap, which is pure I/O.
- The Mongoose store: replaced by the `Store` maps and sequence. Saves are immediate assignments.
- The Product and Order schemas are not part of this model. Product fields are taken from their use in the routes. Order `status` is an `int` whose default is 0.
- Schema validation of product and order documents on save. Only the User schema is modelled. Ids are plain strings, so the cast error a malformed ObjectId raises is not modelled. It would be a 500 in the handlers whose `catch` answers and no response in save-user-address and order-product.
- `Promise.all` in add-to-cart and remove-from-cart, and races between concurrent requests, for example two orders of the same stock. The model is sequential.
- HTTP response plumbing: add-to-cart's second send and the non-interpolated out-of-stock message. The out-of-stock answer is reported as the `skipped` index.
- UserRoutes.OrderProduct: after one uncovered line, the final `res.status(200).json(order)` throws too, because the 400 was already sent. This happens after the cart is emptied and the order is saved, so the store is as modelled, but the order is not actually sent back.
- The Order model's export. routes/user.js:6 imports it as the module's default export, and routes/admin.js:5 imports it as a named export `{Order}`. The Order model's file is not part of this model. The model assumes both imports give the Order model. If the file exports only one way, one side fails. With a default export, `Order` is undefined in admin.js, so change-order-status always answers 500 and analytics throws at `Order.find`. With a named export, `new Order(...)` at routes/user.js:149 throws after the stock and the emptied cart are saved, so no order is stored.
- Request bodies are assumed well-typed: `cart` is a list of lines with numeric quantities, and `address` is a string. Otherwise the code behaves as follows. A body without `cart` throws at `cart.length` (routes/user.js:135), and the `catch` only logs, so nothing changes and nothing is sent. A missing or non-numeric `cart[i].quantity` makes the comparison at routes/user.js:137 false, so that line takes the out-of-stock branch. A body without `address` stores `undefined` as the address (routes/user.js:121).
- The analytics route is registered without its leading slash and never sends its report. `Analytics` models the report it computes.
- The category listing (routes/product.js:9) and the name search (routes/product.js:21-23). They are single store queries with MongoDB matching semantics, the second one a user-supplied case-insensitive regular expression.
- GET /admin/get-products and /admin/get-orders: each returns a whole collection unchanged.
- Floating point: prices, ratings and sums are `real`, so rounding is not modelled.
- `Number(rating)`: the conversion itself is not modelled. `RatingInput` receives its outcome as NaN, an infinity or a finite value.
- ProductRoutes.DealOfTheDay: the in-place sort is replaced by a scan for a maximum, because only `products[0]` is observed. Which product wins a tie is left open, since the comparator never returns 0 and so the library sort's order among equal sums is not specified.
- AdminRoutes.AddProduct: the store gives a new document a fresh ObjectId. The model takes that id as `newId` and refuses one that is already taken.
- JavaScript strings are UTF-16. Strings here are sequences of Unicode characters, with `length` modelled as `Utf16Length`. `trim` and the email regular expression are modelled over characters. They agree with the UTF-16 view because every whitespace character and every character of the regular expression's classes lies in the Basic Multilingual Plane, and no surrogate half is one of them.
