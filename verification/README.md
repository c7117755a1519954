# Restaurant API core, modelled in Dafny

This project models the request-handling core of a mock restaurant
backend written in JavaScript (Node.js and Express). It covers phone login
by one-time code, the customer tier classifier and its made-up statistics,
the personalised offer engine, the menu endpoints, order placement and
listing, ratings, and the authentication middleware.

Every handler becomes a pure function or method. The process-wide
collections (`otpCodes`, `registeredPhones`, `orders`, `ratings`) are
passed in explicitly and come back updated. The clock, random draws,
generated ids, SMS delivery and the token library are parameters. Amounts
of money are exact `real` numbers. JavaScript's `Math.round`, `Math.ceil`,
`Array.prototype.filter`, `find`, `slice` and its stable `sort` are written
out in `common.dfy` and `sorting.dfy`.

Modules, one per file:

- `Common` (common.dfy): options and results, JavaScript truthiness and rounding, and the array helpers.
- `Sorting` (sorting.dfy): a stable insertion sort. It is proved sorted, a permutation of its input and stable for any comparator that is a strict weak order.
- `Phone` (phone.dfy): `formatTurkishPhone` and `isValidTurkishPhone`.
- `Customer` (customer.dfy): `getCustomerTier` and `generateCustomerStats`. Both start from the first 32 bits of the phone's MD5 digest.
- `Otp` (otp.dfy): `generateOTP` and the `/verify-phone` handler. The live copy in `server.js` and the router copy in `routes/auth.js` are both modelled.
- `Offers` (offers.dfy): `GET /offers/:phone`, `POST /offers/apply/:offerId` and `_getNextTierRequirement`.
- `Menu` (menu.dfy): `GET /menu`, `GET /menu/items/:id` and `GET /menu/popular`.
- `Orders` (orders.dfy): `POST /order` and `GET /orders/:phone`.
- `Ratings` (ratings.dfy): `POST /rating` and `GET /ratings/:phone`.
- `Middleware` (middleware.dfy): `verifyApiKey`, `requireAdmin`, `verifyJWT` and `optionalJWT`.

Only the orders and ratings routers are mounted by `server.js`. The
verify-phone, menu and offers handlers that are live are the copies inside
`server.js`. The router copies in `routes/auth.js`, `routes/menu.js` and
`routes/offers.js` are modelled as written. For the phone handler the two
copies are modelled separately and proved to agree on every request the
router's validators accept (`Otp.HandlersAgree`). The menu and offer
listing bodies in `server.js` do the same thing as the router copies. The
one difference is that the server's offer profile has no
`nextTierRequirement`; the model follows the router and includes it.

Three behaviours of the code are easy to misread:

- **Average order value.** The average is rounded from the unrounded
  spend divided by the order count, not from the rounded total. Seed 210
  gives 2 orders, 64.7 spent (reported as 65) and an average of 32, while
  65 / 2 would round to 33 (`Customer.AverageNotFromRoundedTotal`).
- **Code expiry.** A code expires only when the clock is strictly past
  creation plus five minutes. At exactly five minutes it is still accepted.
- **`isNewCustomer`.** The flag is read after the phone is added to
  `registeredPhones`, so it is always false. The model keeps this
  behaviour and proves it (`Otp.NewCustomerFlagAlwaysFalse`).

## Model

| member | source | states |
|---|---|---|
| Common.RoundCents | restaurant-api/routes/offers.js:193-195 | `Math.round(x * 100) / 100` is a whole number of cents within half a cent of x |
| Common.CeilDiv | restaurant-api/routes/offers.js:51 | the day count is the least integer r with n <= r * d |
| Common.FindIndex | restaurant-api/routes/offers.js:158 | `find` yields the first element that passes, and nothing exactly when no element passes |
| Common.FilterCount | restaurant-api/routes/orders.js:110 | `filter` keeps each element exactly as often as the input holds it when it passes, and never otherwise |
| Common.FilterMembers | restaurant-api/routes/orders.js:110 | an element is in the filtered array iff it is in the input and passes |
| Common.FilterAppend | restaurant-api/routes/orders.js:166 | filtering a concatenation is concatenating the filtered parts |
| Common.FilterFilter | restaurant-api/routes/menu.js:20-37 | two filters in a row equal one filter by the conjunction of their tests |
| Common.Take | restaurant-api/routes/menu.js:100 | `slice(0, n)` is a prefix of length n, or the whole array when shorter |
| Common.Page | restaurant-api/routes/orders.js:163 | `slice(offset, offset + limit)` holds the elements from offset on, limit of them or up to the end |
| Common.PagesTile | restaurant-api/routes/orders.js:163 | the page at `offset` of size a followed by the page at `offset + a` of size b is the page at `offset` of size a + b |
| Common.HasMoreIffItemsBeyondPage | restaurant-api/routes/orders.js:183 | `hasMore` holds iff elements remain after the returned page |
| Sorting.SortSorted | restaurant-api/routes/orders.js:159 | the sort's output is ordered by the comparator and is a permutation of the input |
| Sorting.SortStable | restaurant-api/routes/menu.js:42-46 | elements the comparator ties keep their input order |
| Phone.Format | restaurant-api/utils/helpers.js:18-30 | the result is the input unchanged or "+90" followed by digits only |
| Phone.IsValid | restaurant-api/utils/helpers.js:32-35 | the anchored pattern accepts exactly "+905" followed by nine digits, 13 characters in all |
| Phone.FormatIdempotent | restaurant-api/utils/helpers.js:18-30 | formatting a formatted number changes nothing, for every input |
| Phone.FormatKeepsValid | restaurant-api/utils/helpers.js:18-35 | a valid canonical number formats to itself |
| Phone.ValidAfterFormatIff | restaurant-api/utils/helpers.js:18-35 | format-then-validate accepts a raw input iff its digits are a 12-digit "905…", a 10-digit "5…" or an 11-digit "05…" number |
| Customer.TierOfByte | restaurant-api/utils/helpers.js:37-45 | the tier returned is the one whose 64-wide band holds the leading byte |
| Customer.TierBandsPartition | restaurant-api/utils/helpers.js:41-44 | every byte in [0, 256) lies in the band of exactly one tier, the one returned |
| Customer.TierMonotone | restaurant-api/utils/helpers.js:41-44 | a larger leading byte never gives a lower tier |
| Customer.Fraction | restaurant-api/utils/helpers.js:50 | the pseudo-random fraction lies in [0, 0.999] |
| Customer.TierFormula | restaurant-api/utils/helpers.js:55-72 | each tier's order count and spend per order stay in that tier's ranges |
| Customer.StatsOfSeed | restaurant-api/utils/helpers.js:47-79 | the order count is the tier formula's count, the spend is the count times the rate rounded, and the average is the rate rounded; hence at least one order, non-negative spend, and counts and averages in the tier's ranges |
| Customer.SpentNearOrdersTimesAverage | restaurant-api/utils/helpers.js:74-79 | the spend differs from the order count times the average by less than (count + 1) / 2 |
| Customer.AverageNotFromRoundedTotal | restaurant-api/utils/helpers.js:76-77 | seed 210 gives 2 orders, 65 spent and an average of 32, while 65 / 2 rounds to 33 |
| Customer.ExactRealsAtResidue580 | restaurant-api/utils/helpers.js:50-72 | seed 3221225580 is platinum with 0.58 * 50 exactly 29 over the reals, giving 59 orders, 5812 spent and an average of 99 |
| Otp.GenerateOtp | restaurant-api/utils/helpers.js:3-10 | the code has the requested length, is all digits, and position i is the digit drawn for i |
| Otp.Send | restaurant-api/routes/auth.js:44-71 | stores a fresh record with zero attempts, replacing any earlier one, even when delivery fails; reports registration without changing it |
| Otp.Verify | restaurant-api/routes/auth.js:73-128 | missing code or no record changes nothing; otherwise the attempt counts, expiry then the ceiling discard the record, a mismatch keeps it, success consumes it and registers the phone |
| Otp.NewCustomerFlagAlwaysFalse | restaurant-api/routes/auth.js:105-127 | every successful verification reports `isNewCustomer` false and leaves the phone registered |
| Otp.SendKeepsAttemptsBounded | restaurant-api/routes/auth.js:50-55 | after a send every stored record has between 0 and 3 attempts |
| Otp.VerifyKeepsAttemptsBounded | restaurant-api/routes/auth.js:84-102 | a verification keeps every stored record at 3 attempts or fewer |
| Otp.CorrectCodeOnce | restaurant-api/routes/auth.js:99-110 | a correct fresh code succeeds once; presenting it again finds no pending code |
| Otp.FourthAttemptAlwaysFails | restaurant-api/routes/auth.js:84-102 | three wrong codes are mismatches and the fourth verification fails on the ceiling whatever code it carries |
| Otp.ExpiredAlwaysFails | restaurant-api/routes/auth.js:87-91 | past five minutes any code fails as expired and the record is discarded |
| Otp.LiveHandle | restaurant-api/server.js:124-214 | a missing or invalid phone is refused before the store is touched; for a valid phone the action, "send_otp" when absent, runs Send or Verify on the formatted phone and answers its outcome; any other action answers nothing and changes nothing |
| Otp.RouterHandle | restaurant-api/routes/auth.js:15-44 | the validators refuse a missing or invalid phone and an unknown action; otherwise an absent or "send_otp" action runs Send and "verify_otp" runs Verify on the formatted phone, so the router always answers |
| Otp.HandlersAgree | restaurant-api/server.js:124-208 | the live and router handlers give the same result on every request the validators accept |
| Otp.LiveHandleKeepsKeysCanonical | restaurant-api/server.js:128-136 | pending codes and registered phones stay keyed by valid canonical numbers |
| Offers.Annotate | restaurant-api/routes/offers.js:50-63 | days left is the ceiling of the remaining time in days, at least 1 for a live offer; expiring soon iff at most 3 days; savings are capped by the maximum discount |
| Offers.Pipeline | restaurant-api/routes/offers.js:26-63 | the list holds exactly the eligible catalog offers with their multiplicities, in priority order, each annotated and with a day or more left |
| Offers.NewCustomerOffersFirst | restaurant-api/routes/offers.js:40-43 | every welcome offer precedes every other offer |
| Offers.DiscountNonIncreasingInGroup | restaurant-api/routes/offers.js:45-46 | within each group the discount never increases along the list |
| Offers.TiesKeepCatalogOrder | restaurant-api/routes/offers.js:40-47 | offers the comparator ties keep their catalog order |
| Offers.ListOffers | restaurant-api/routes/offers.js:13-88 | the profile carries the phone, its own tier and statistics and that tier's next-tier requirement; the offers are exactly the pipeline's ordered, annotated list for that tier and average, and the count is their number |
| Offers.NextTierRequirement | restaurant-api/routes/offers.js:209-218 | platinum has no next tier and needs nothing; every other tier names the tier just above it, and each shortfall is zero iff its threshold is met and tops up exactly to it otherwise |
| Offers.ShortfallNeverGrows | restaurant-api/routes/offers.js:209-218 | with at least as many orders and as much spend, the next tier stays the same and neither shortfall grows |
| Offers.Discount | restaurant-api/routes/offers.js:178-181 | the discount is the percentage of the total or the cap, whichever is smaller |
| Offers.Apply | restaurant-api/routes/offers.js:149-198 | errors in the handler's order (fields, lookup, expiry from `validUntil` on, activity, minimum); a success reports rounded discount and final total |
| Offers.RoundCentsMonotone | restaurant-api/routes/offers.js:193-194 | rounding to cents never reverses order |
| Offers.AppliedAmountsConsistent | restaurant-api/routes/offers.js:178-195 | the reported discount never exceeds a whole-cent cap, and discount plus final total is within a cent of the original |
| Offers.WelcomeOfferExamples | restaurant-api/data/mockData.js:220-236 | the welcome offer gives 25 off 100, 50 (capped) off 500, refuses 20 as below minimum; zero totals and unknown ids are refused |
| Offers.BronzeListingExample | restaurant-api/data/mockData.js:219-271 | a bronze customer sees only the welcome offer of the mock catalog |
| Offers.GoldListingExample | restaurant-api/data/mockData.js:219-271 | a gold customer sees the 40% combo before the 20% loyalty offer, and no welcome offer |
| Menu.FilterItems | restaurant-api/routes/menu.js:16-39 | the three filters in a row are one filter by the combined criterion, so the items matching every given criterion are kept in catalog order with their multiplicities |
| Menu.PopularSortIsStablePartition | restaurant-api/routes/menu.js:42-46 | the popularity sort equals the popular items then the others, each group in catalog order |
| Menu.GetMenu | restaurant-api/routes/menu.js:12-60 | the listing holds exactly the selected items, popular first and otherwise in catalog order; the filters block echoes the category and search exactly when they are truthy, and the availability flag |
| Menu.GetItem | restaurant-api/routes/menu.js:88-106 | not found iff no item has the id; otherwise the item at the first position with the id, and the first up-to-four others of its category, in catalog order (all of them when fewer than four) |
| Menu.Popular | restaurant-api/routes/menu.js:118-127 | a prefix of the popular available items in catalog order, of length eight or all of them |
| Menu.ListedItemsCanBeFetched | restaurant-api/routes/menu.js:12-106 | every catalog item a query selects is listed, and is found by the item page under its id |
| Menu.PopularHeadsAvailableMenu | restaurant-api/routes/menu.js:12-127 | the popular endpoint returns a prefix of the listing with `available_only=true` |
| Orders.OrNull | restaurant-api/routes/orders.js:46 | the `or null` default keeps a non-empty string and drops an empty or absent one |
| Orders.ItemError | restaurant-api/routes/orders.js:24-36 | an item is bad iff its id or quantity is missing or the quantity is below 1; otherwise the first catalog entry with its id decides: none is unknown, an unavailable one is unavailable, an available one passes |
| Orders.AvailableItemAccepted | restaurant-api/routes/orders.js:24-47 | ordering an available catalog item by its id in a positive quantity passes and yields that entry |
| Orders.ValidateOne | restaurant-api/routes/orders.js:24-47 | an item is refused exactly when it has an error, with that error; an accepted item carries its catalog entry, its quantity and its notes or null |
| Orders.ValidateItems | restaurant-api/routes/orders.js:20-48 | the first failing item decides the error; otherwise one validated item per request item, and the total is the sum of the line totals |
| Orders.MaxPreparation | restaurant-api/routes/orders.js:63 | the preparation time is the largest of the items' times |
| Orders.NewOrder | restaurant-api/routes/orders.js:54-65 | the new order has one line per requested item with its id and quantity, the rounded sum of the line totals, the longest preparation time, the formatted phone, and is pending with payment pending |
| Orders.PlaceOrder | restaurant-api/routes/orders.js:8-68 | succeeds iff the phone and a non-empty item list are given and every item passes; missing fields and item errors store nothing; a valid order is appended once, pending and unpaid, with rounded total and the longest preparation time |
| Orders.WithExamples | restaurant-api/routes/orders.js:110-151 | a phone with no orders gets the two example orders, which are also appended to the store; otherwise the phone's own orders |
| Orders.SelectStatus | restaurant-api/routes/orders.js:154-156 | no status keeps every order; a truthy status keeps, in order and with their multiplicities, exactly the orders with that status |
| Orders.NewestFirst | restaurant-api/routes/orders.js:159 | a permutation of the orders with the newest first |
| Orders.ListOrders | restaurant-api/routes/orders.js:105-185 | the page is the slice at `offset` of the phone's orders with the status, newest first, taken from the store after the examples were added; the total counts that selection; spend and open-order counts over all the phone's orders |
| Orders.PageListing | restaurant-api/routes/orders.js:161-184 | the page is the slice of the sorted selection, the total its length, `hasMore` iff `offset + limit` is below it, and the last order date that of the page's first order |
| Orders.ListingPagesTile | restaurant-api/routes/orders.js:158-163 | two consecutive pages of a customer's listing together are the page of both sizes |
| Orders.WholeListing | restaurant-api/routes/orders.js:152-163 | a page from offset 0 at least as large as the total holds every selected order and reports no more |
| Orders.SumTotalsAppend | restaurant-api/routes/orders.js:169-171 | the summed totals of a concatenation add up |
| Orders.CustomerOrdersAppend | restaurant-api/routes/orders.js:68 | appending an order of a phone adds exactly it to that phone's orders |
| Orders.PlacedOrderIsOpenNotSpent | restaurant-api/routes/orders.js:166-172 | a new pending order raises the open count by one and leaves delivered spend unchanged |
| Orders.DummyOrdersOnlyOnce | restaurant-api/routes/orders.js:112-151 | after one listing the phone has orders and a second listing leaves the store unchanged |
| Orders.ExamplesAreNewestFirst | restaurant-api/routes/orders.js:114-147 | the example orders are already newest first |
| Orders.ExamplesAreTheCustomersOrders | restaurant-api/routes/orders.js:149-150 | after appending, the phone's orders are exactly the examples |
| Orders.ExamplesStats | restaurant-api/routes/orders.js:166-172 | the examples count 155 as delivered spend and nothing as open |
| Orders.FirstListingShowsExamples | restaurant-api/routes/orders.js:105-185 | a first default listing shows both examples, 155 spent, none open, total 2, no more pages |
| Ratings.Trim | restaurant-api/routes/ratings.js:54 | `trim()` gives the infix left after removing white space at both ends, empty iff all white space |
| Ratings.TrimIdempotent | restaurant-api/routes/ratings.js:54 | trimming twice is trimming once |
| Ratings.FeedbackOf | restaurant-api/routes/ratings.js:54 | feedback is null iff absent or blank, otherwise the trimmed text |
| Ratings.SubmitRating | restaurant-api/routes/ratings.js:8-89 | errors in the handler's order (fields, star range, order, owner, delivery, repeat) change nothing; a success appends one rating and copies stars and feedback onto the order |
| Ratings.SubmitKeepsOnePerOrder | restaurant-api/routes/ratings.js:39-43 | every submission keeps at most one rating per order and customer |
| Ratings.SecondSubmitRefused | restaurant-api/routes/ratings.js:39-68 | repeating a successful submission is refused as already rated and changes nothing |
| Ratings.RatingsWithExamples | restaurant-api/routes/ratings.js:122-147 | a phone with no ratings gets the two example ratings, also appended to the store |
| Ratings.ExamplesAreTheCustomersRatings | restaurant-api/routes/ratings.js:145-146 | after appending, the phone's ratings are exactly the examples |
| Ratings.DistributionCoversAll | restaurant-api/routes/ratings.js:162-168 | with stars in [1, 5], the five buckets count every rating exactly once |
| Ratings.StatsOf | restaurant-api/routes/ratings.js:156-169 | the average times the count is the star sum (0 with no ratings); each bucket counts its star value |
| Ratings.Average | restaurant-api/routes/ratings.js:159-161 | with no ratings the average is 0; otherwise the average times the number of ratings is the star sum |
| Ratings.NewestRatingsFirst | restaurant-api/routes/ratings.js:150 | a permutation of the ratings with the newest first |
| Ratings.PageRatings | restaurant-api/routes/ratings.js:152-179 | the page is the slice at `offset` of the sorted ratings, at most `limit` of them; the total counts the whole list and `hasMore` holds iff `offset + limit` is below it |
| Ratings.AverageInRange | restaurant-api/routes/ratings.js:159-161 | with stars in [1, 5] the average lies in [1, 5] |
| Ratings.ListRatings | restaurant-api/routes/ratings.js:117-180 | the page is the slice of the phone's ratings newest first, taken from the store after the examples were added; the total counts them and the statistics range over all of them |
| Ratings.RatingPagesTile | restaurant-api/routes/ratings.js:150-153 | two consecutive pages of a customer's ratings together are the page of both sizes |
| Ratings.ListingKeepsOnePerOrder | restaurant-api/routes/ratings.js:124-147 | inventing the examples keeps at most one rating per order and customer |
| Middleware.VerifyApiKey | restaurant-api/middleware/auth.js:34-48 | no key in header or query is refused, then a key matching neither configured key; an accepted request is "admin" iff its key is the admin key, else "user" |
| Middleware.RequireAdmin | restaurant-api/middleware/auth.js:53-58 | passes the request unchanged iff it is marked "admin" |
| Middleware.AdminGateIffAdminKey | restaurant-api/middleware/auth.js:41-57 | the API-key gate followed by the admin gate passes iff the presented key is non-empty and equals the admin key |
| Middleware.BearerToken | restaurant-api/middleware/auth.js:10-14 | a token exists iff the header is non-empty and starts with "Bearer ", and the header is "Bearer " plus the token |
| Middleware.VerifyJwt | restaurant-api/middleware/auth.js:7-29 | no bearer header is refused; a valid token passes with its payload as user; expired, malformed and other failures give their own refusals |
| Middleware.OptionalJwt | restaurant-api/middleware/auth.js:63-77 | never refuses; sets the user only from a bearer token that decodes, and changes nothing else |
| Middleware.OptionalAgreesWithStrict | restaurant-api/middleware/auth.js:7-77 | where the strict gate passes the optional one annotates identically, and where it refuses the optional one leaves the request unchanged |

## Left out

- Express routing, response envelopes, logging, `helmet`, CORS and the rate limiter. They are plumbing around the handlers or configuration of outside libraries.
- The artificial `setTimeout` delays in the handlers, and the timer that flips a new order to "confirmed" after three seconds. They need a scheduler. The model shows an order as placed, in the "pending" state.
- Concurrency between requests. The model assumes requests are handled one after another, each as one step on the shared collections. The source does not guarantee this: its handlers await between checking and writing. `POST /rating` waits a second between the duplicate check and the push (routes/ratings.js:40-64), so two overlapping submissions for one order both store a rating, and the one-rating-per-order property (`Ratings.SubmitKeepsOnePerOrder`) holds only for sequential requests. `POST /order` likewise waits between validation and the push, and the live `send_otp` branch reads `isRegistered` after awaiting the SMS.
- MD5. `Customer` starts from the first 32 bits of the digest. The tier reads the top byte of those bits, which is the first two hex digits.
- `Math.random`, `Date.now` and `generateUniqueId`. Random digits, the clock and new ids are parameters.
- The SMS channel's delay and random 5% failure. Whether delivery succeeded is a parameter of `Otp.Send`.
- Token signing, `POST /refresh-token` and the `jsonwebtoken` library. `Middleware.VerifyJwt` receives the library's verdict as a function parameter. The success branch of `Otp.Verify` does not model the token it signs.
- `GET /offers/all/available`, `GET /menu/categories`, `GET /order/:orderId` and `GET /rating/order/:orderId`. They are single lookups or random usage figures with no rules to state.
- The Arabic `tierName` labels of the offer profile and the Arabic response messages. Outcomes are datatype constructors.
- IEEE-754 floating point. Prices, discounts and averages are exact reals, so the rounding is exact where JavaScript can be off by a binary fraction.
- Customer.TierFormula: the fraction and the products are exact reals, while `generateCustomerStats` computes them in doubles. This can change whole numbers. For a platinum phone with seed % 1000 == 580, `Math.floor(0.58 * 50)` is 28 in doubles but 29 here. The model therefore reports 59 orders and 5812 spent where the code reports 58 and 5713 (`Customer.ExactRealsAtResidue580`, seed 3221225580). No other residue of any tier changes the order count. Where the exact spend per order times the count lands on a .5 tie, the double product lands just below it. There the model's `totalSpent` is one higher: gold residues 420 and 428, and platinum residues 308, 601, 611 and 716.
- Offers.NextTierRequirement: the table is looked up by the customer's tier, which is all its one caller passes. The `|| null` fallback for a key outside the table is never reached from there, and is not modelled. A name inherited from `Object.prototype`, such as "constructor", would not reach it either.
- Ratings.StatsOf: the average is the exact mean, not the one-decimal string `toFixed(1)` produces.
- Menu.GetMenu: `toLowerCase` is a function parameter, because Unicode case mapping is not modelled.
- Menu.GetMenu: the `categories` and `totalCategories` fields of the listing are not modelled. They echo the static category table whatever the query is.
- Menu.GetItem: the item page's `category` field, the category table entry found by the item's `categoryId`, is not modelled. It is a static catalog lookup.
- Offers.Pipeline: one clock reading `now` serves the eligibility filter and every annotation. The source reads the clock again for the filter and for each offer's `daysLeft`. An offer whose `validUntil` falls between those readings passes the filter with `daysLeft` 0 and is marked expiring soon. The clause `daysLeft >= 1` holds only under the single reading.
- Orders.ListOrders: `limit` and `offset` are natural numbers. The source reads them from the query string, where a given `offset` is a string and `offset + parseInt(limit)` becomes a string concatenation. That case is not modelled.
- Ratings.ListRatings: `limit` and `offset` are natural numbers, for the same reason as for orders.
- Orders.PlaceOrder: quantities are integers, and a non-array `items` counts as absent. The source would also multiply by a fractional quantity.
- Ratings.SubmitRating: the rating's `metadata` block (platform, order value, item count) and the order's `ratedAt` time are not recorded. Nothing in the handlers reads them back.
- Ratings.SubmitRating: stars are integers. The source would also store a fractional or numeric-string rating that passes its range check.
- Orders.PlaceOrder: order lines keep the item id, not the whole catalog entry the source embeds. The rest of the model reads only the id.
