# MMA_Repo core in Dafny

This project models the logic of the MMA_Repo shop that has a meaning of its
own, apart from its screens and its database plumbing:

- the VNPay payment link: `createPaymentLinkAD` and `sortObject`. These build
  the twelve gateway parameters, percent-encode and sort them, join them into
  the signed string, and append the HMAC last;
- the payment handlers: `createVNPayment` (order lookup, short order id,
  sanitised description, client address) and `verifyVNPayment` (the callback
  that marks an order completed or cancelled);
- the client cart reducer and its initial state;
- the product handlers that carry logic: `handleReview` and `addReview`
  (validation, push, average rating), `getUserReview` (filter, sort, page) and
  the query `getProducts` builds (filter, sort key, skip, page count);
- the six order handlers, including the statistics folds, the month windows
  and growth figures of the dashboard, the ownership-checked lookup and the
  status-only update;
- the product and transaction schemas: required paths, ranges, enumerations,
  defaults, timestamps and the pre-save hook.

The modules are listed below.

| module | file | models |
|---|---|---|
| `PaymentLink` | utils.dfy | server/helpers/utils.js |
| `PaymentController` | payment_controller.dfy | server/controllers/paymentController.js |
| `CartContext` | cart_context.dfy | client/context/cartContext.js |
| `ProductController` | product_controller.dfy | server/controllers/productController.js |
| `ProductModel` | product_model.dfy | server/models/productModel.js |
| `TransactionController` | transaction_controller.dfy | server/controllers/transactionController.js |
| `TransactionModel` | transaction_model.dfy | server/models/transactionModel.js |
| `TransactionStore` | transaction_store.dfy | the orders collection: a map from id to record, with insertion order |
| `UriEncoding` | uri.dfy | JavaScript's `encodeURIComponent` on ASCII, the `%20` to `+` rewrite, and the matching decoders |
| `JsNumbers` | numbers.dfy | `parseInt`, truncation, `Math.ceil` of a quotient, `toFixed(1)`, zero-padded digits |
| `Strings` | strings.dfy | the default string order of `Array.prototype.sort` |
| `Sorting` | sorting.dfy | a stable sort (insertion sort, also in place on an array) |
| `Wrappers` | wrappers.dfy | `Option` |

The form follows the source:

- Code that changes things in place is written as methods with loops or
  `modifies` clauses. This covers `sortObject`'s two loops and in-place sort,
  the product document that `handleReview` and `addReview` push into and
  save, the order store the payment and order handlers write, and the in-place
  sort of `getUserReview`.
- The pure parts are functions with lemmas about them: the reducer, the
  folds, the schemas, and the signed string and URL.
- The clock, the environment (`VNP_TMN_CODE`, `VNP_HASH_SECRET`, `VNP_URL`,
  `VNP_RETURN_URL`) and the HMAC are parameters. The HMAC is a function of
  key and data that the model never looks inside.

A payment URL can be read back. `PaymentLink.ParseQuery` is an independent
reader of `key=value&...` strings. The model proves that the signed string
parses back to the sorted parameters, and that the URL's query parses back to
those parameters followed by `vnp_SecureHash`, for a hash without `&`, which a
hex digest never has.

## Model

| member | source | states |
|---|---|---|
| PaymentLink.FormatTxnRef | server/helpers/utils.js:9 | the transaction reference (`DDHHmmss`) is eight decimal digits |
| PaymentLink.FormatCreateDate | server/helpers/utils.js:17 | the creation stamp (`YYYYMMDDHHmmss`) is fourteen decimal digits |
| PaymentLink.CreateDateRoundTrip | server/helpers/utils.js:17 | the stamp of a valid date and time reads back as that same date and time |
| PaymentLink.EncodedKeys | server/helpers/utils.js:59-63 | one key per own key of the object, each passed through `encodeURIComponent`, in the object's order |
| PaymentLink.WithValues | server/helpers/utils.js:65-67 | one pair per sorted key, the key with its encoded value, in the order of the keys |
| PaymentLink.CollectKeys | server/helpers/utils.js:59-63 | the `for...in` loop pushes exactly the encoded keys, in order |
| PaymentLink.FillValues | server/helpers/utils.js:65-67 | the index loop over the sorted array builds exactly the key/encoded-value pairs of those keys |
| PaymentLink.SortObject | server/helpers/utils.js:55-69 | `sortObject` returns the encoded keys sorted in place by the default string order, each with its value encoded and `%20` rewritten as `+` |
| PaymentLink.JoinAppend | server/helpers/utils.js:38-40 | joining one more pair adds exactly `&key=value`, so there is no leading or trailing separator |
| PaymentLink.EncodedKeysDistinct | server/helpers/utils.js:59-64 | distinct ASCII keys stay distinct once encoded |
| PaymentLink.StringOrder | server/helpers/utils.js:64 | the order `str.sort()` uses is a strict total order |
| PaymentLink.SortedObjectAscending | server/helpers/utils.js:64-67 | the keys of the sorted object are strictly ascending |
| PaymentLink.SortedObjectEntries | server/helpers/utils.js:59-67 | the sorted object has as many entries as the input, every key is the encoding of an input key, and every input entry with an unreserved key is kept with its value form-encoded |
| PaymentLink.SortedObjectKeys | server/helpers/utils.js:59-64 | the sorted object has as many entries as the input and each key is the encoding of an input key |
| PaymentLink.SortedObjectKeeps | server/helpers/utils.js:65-67 | an input entry whose key encoding leaves unchanged appears in the sorted object with its value form-encoded |
| PaymentLink.SortedGet | server/helpers/utils.js:66 | looking an unreserved key up in the sorted object gives its form-encoded value |
| PaymentLink.SplitNone | server/helpers/utils.js:38-40 | a string without the separator splits into itself alone |
| PaymentLink.SplitPrefix | server/helpers/utils.js:38-40 | splitting `a + sep + b`, where `a` holds no separator, gives `a` followed by the pieces of `b` |
| PaymentLink.ParsePairOfPair | server/helpers/utils.js:39 | reading `key=value` back gives the pair when the key holds no `=` |
| PaymentLink.SplitJoined | server/helpers/utils.js:38-40 | splitting the joined string at `&` gives back the `key=value` pieces, one per pair |
| PaymentLink.QueryRoundTrip | server/helpers/utils.js:38-40 | parsing the joined pairs gives back the pairs when no key holds `&` or `=` and no value holds `&` |
| PaymentLink.EncodedWithout | server/helpers/utils.js:66 | encoded text (percent escapes, unreserved characters and `+`) holds no `&` and no `=` |
| PaymentLink.SortedEntrySafe | server/helpers/utils.js:66 | an encoded key holds no `&` or `=`, and the value stored under it holds no `&` |
| PaymentLink.SortedObjectQuerySafe | server/helpers/utils.js:55-69 | the output of `sortObject` can be joined and read back without ambiguity |
| PaymentLink.OrderInfoAscii | server/helpers/utils.js:26 | the order information (the description, or the default text with the order id when it is empty) is ASCII |
| PaymentLink.DigitsUnreserved | server/helpers/utils.js:9 | decimal digits are unreserved characters, so encoding leaves them alone |
| PaymentLink.DecimalUnreserved | server/helpers/utils.js:28 | the decimal form of the scaled amount, sign included, is unchanged by encoding |
| PaymentLink.RawParamsKeys | server/helpers/utils.js:19-32 | the parameter set has twelve entries with distinct keys |
| PaymentLink.RawParamsAscii | server/helpers/utils.js:19-32 | every key and value of the parameter set is ASCII |
| PaymentLink.RawKeysAscii | server/helpers/utils.js:19-32 | every key of the parameter set is ASCII |
| PaymentLink.KeyUnreserved | server/helpers/utils.js:20-31 | each of the twelve `vnp_` keys consists of unreserved ASCII characters only, so encoding leaves it unchanged |
| PaymentLink.ValueUnreserved | server/helpers/utils.js:20-27 | the constants `2.1.0`, `pay`, `vn`, `VND` and `billpayment` are unreserved ASCII |
| PaymentLink.RawValueAscii | server/helpers/utils.js:19-32 | every value of the parameter set is ASCII |
| PaymentLink.RawLiteralAscii | server/helpers/utils.js:20-27 | the constant values (version, command, locale, currency, order type) are ASCII |
| PaymentLink.RawComputedAscii | server/helpers/utils.js:26-29 | the order information, the amount and the return URL values are ASCII |
| PaymentLink.CreatePaymentLinkAD | server/helpers/utils.js:6-52 | the URL is the one `PaymentUrl` gives for the amount, description, address, clock and configuration; `transactionID` is not among them, so two calls that differ only in it return the same URL |
| PaymentLink.PaymentUrlShape | server/helpers/utils.js:42-51 | the URL is `vnpUrl + "?" + signData + "&vnp_SecureHash=" + hmac(secret, signData)`: the hash comes last and is not part of the signed data |
| PaymentLink.SortedQueryRoundTrip | server/helpers/utils.js:44-49 | the joined sorted pairs read back as those pairs, and with the hash appended read back as those pairs followed by `vnp_SecureHash` |
| PaymentLink.PaymentQueryParses | server/helpers/utils.js:35-51 | there are twelve sorted parameters in strictly ascending key order; the signed string parses back to exactly them; the URL starts with `vnpUrl?` and its query parses back to them followed by `vnp_SecureHash` last |
| PaymentLink.PaymentPlainParams | server/helpers/utils.js:20-31 | version `2.1.0`, command `pay`, locale `vn`, currency `VND`, the reference, order type `billpayment`, amount and creation stamp reach the sorted parameters unchanged |
| PaymentLink.PaymentEncodedParams | server/helpers/utils.js:66 | the terminal code and the client address are encoded once, with `%20` as `+` |
| PaymentLink.PaymentAmount | server/helpers/utils.js:28 | `vnp_Amount` reads back through `parseInt` as the amount times 100000 truncated toward zero, which for a non-negative amount lies within 1 below the exact product |
| PaymentLink.PaymentDoubleEncoding | server/helpers/utils.js:15 | `vnp_OrderInfo` and `vnp_ReturnUrl` are encoded twice: the value sent is the first encoding with every `%` turned into `%25` |
| UriEncoding.HexDigitValue | server/helpers/utils.js:66 | each hexadecimal digit of an escape reads back as its value |
| UriEncoding.EncodeCharShape | server/helpers/utils.js:66 | an unreserved character encodes as itself; any other ASCII character encodes as `%` followed by two hex digits that decode back to it |
| UriEncoding.EncodedChars | server/helpers/utils.js:66 | encoded text consists of unreserved characters and `%` only |
| UriEncoding.DecodeEncoded | server/helpers/utils.js:66 | `decodeURIComponent` inverts `encodeURIComponent` on ASCII text |
| UriEncoding.EncodeInjective | server/helpers/utils.js:61 | two ASCII strings with the same encoding are equal |
| UriEncoding.ReplaceAfterEncodedChar | server/helpers/utils.js:66 | the `%20` rewrite of an encoded string works character by character |
| UriEncoding.FormEncodeByChar | server/helpers/utils.js:66 | form encoding of a non-empty string is the form encoding of its first character followed by that of the rest |
| UriEncoding.FormDecodeEncoded | server/helpers/utils.js:66 | form decoding (`+` as space) inverts encoding followed by the `%20` rewrite |
| UriEncoding.FormEncodeWithoutSpace | server/helpers/utils.js:66 | on ASCII text without a space the `%20` rewrite changes nothing |
| UriEncoding.EncodeOfEncodedChars | server/helpers/utils.js:26 | encoding already-encoded text only turns each `%` into `%25` |
| UriEncoding.EncodeTwice | server/helpers/utils.js:15 | an encoded string is ASCII, and encoding it again (then the rewrite) only turns each `%` into `%25` |
| UriEncoding.SpaceEncodedTwice | server/helpers/utils.js:26 | a space encoded twice is sent as `%2520`, never as `+` |
| UriEncoding.EncodeUnreserved | server/helpers/utils.js:66 | text of unreserved characters is left unchanged by encoding and by the rewrite |
| UriEncoding.FormEncodedChars | server/helpers/utils.js:66 | after the rewrite the value consists of unreserved characters, `%` and `+` only |
| Strings.LessIrreflexive | server/helpers/utils.js:64 | no string sorts before itself |
| Strings.LessTransitive | server/helpers/utils.js:64 | the default string order is transitive |
| Strings.LessConnected | server/helpers/utils.js:64 | of two different strings one sorts first |
| Strings.LessIsStrictTotalOrder | server/helpers/utils.js:64 | the default string order is a strict total order |
| Sorting.InsertPermutes | server/controllers/productController.js:303-315 | inserting an element adds exactly that element |
| Sorting.SortSeqPermutes | server/controllers/productController.js:303-315 | sorting is a permutation |
| Sorting.InsertSorted | server/controllers/productController.js:303-315 | inserting into a sorted sequence under a strict weak order keeps it sorted |
| Sorting.SortSeqSorted | server/controllers/productController.js:303-315 | the result is sorted under any strict weak order |
| Sorting.SortSeqUnmoved | server/controllers/productController.js:314 | a comparator that ranks nothing ahead of anything leaves the order unchanged (the sort is stable) |
| Sorting.SortedUnique | server/helpers/utils.js:64 | under a strict total order there is only one sorted permutation |
| Sorting.SortSeqCanonical | server/helpers/utils.js:64 | under a strict total order the result depends only on the multiset of the input |
| Sorting.DistinctCount | server/helpers/utils.js:64 | an element of a sequence without repeats occurs at most once |
| Sorting.PermutationDistinct | server/helpers/utils.js:64 | a permutation of a sequence without repeats has none |
| Sorting.InsertInPlace | server/helpers/utils.js:64 | moving element `i` back into the sorted prefix leaves the array prefix equal to the insertion and the rest untouched |
| Sorting.SortInPlace | server/controllers/productController.js:303 | sorting the array in place leaves it equal to the sorted sequence of its old contents |
| JsNumbers.DigitChar | server/helpers/utils.js:9 | a digit value below ten becomes the matching decimal character |
| JsNumbers.Digits | server/helpers/utils.js:28 | the decimal form of a natural number is non-empty, all digits, and has no leading zero unless it is 0 |
| JsNumbers.FixedDigits | server/helpers/utils.js:17 | a zero-padded field has exactly its width in digits |
| JsNumbers.DigitsValue | server/helpers/utils.js:28 | the decimal form reads back as the number |
| JsNumbers.FixedDigitsValue | server/helpers/utils.js:17 | a zero-padded field of a number below its width's power of ten reads back as that number |
| JsNumbers.TrimStart | server/controllers/paymentController.js:49 | after skipping leading white space, what remains is a suffix of the input that is empty or starts with a non-space character |
| JsNumbers.RunLength | server/controllers/paymentController.js:49 | the digit run `parseInt` reads is the longest prefix of digits of the radix |
| JsNumbers.RunLengthOfDigits | server/controllers/paymentController.js:49 | the run over a string of digits followed by a non-digit is exactly those digits |
| JsNumbers.ParseDigits | server/controllers/paymentController.js:49 | the magnitude read from a decimal form followed by a non-digit, non-`x` character is the number |
| JsNumbers.ParseNegative | server/controllers/paymentController.js:49 | a leading `-` negates the magnitude |
| JsNumbers.ParseUnsigned | server/controllers/paymentController.js:49 | a string starting with a digit reads as its magnitude |
| JsNumbers.ParseNonNegative | server/controllers/paymentController.js:49 | `parseInt` of the decimal form of a natural number, followed by anything that ends the run, is that number |
| JsNumbers.ParseNegativeDigits | server/controllers/paymentController.js:49 | `parseInt` of `-` and a decimal form is the negated number |
| JsNumbers.ParseDecimalString | server/controllers/paymentController.js:49 | `parseInt` reads the decimal form of any integer back as that integer, whatever non-digit follows |
| JsNumbers.ParseDecimal | server/controllers/paymentController.js:49 | `parseInt` inverts the decimal form of an integer |
| JsNumbers.Trunc | server/helpers/utils.js:28 | `parseInt` of a number rounds toward zero: below by less than one for non-negatives, above by less than one for negatives |
| JsNumbers.CeilDiv | server/controllers/productController.js:327 | `Math.ceil(n / d)` is the least integer at or above the quotient; a zero divisor has no finite result |
| JsNumbers.RoundTenth | server/controllers/productController.js:254 | rounding to one decimal moves the value by at most 0.05 |
| JsNumbers.RoundTenthBounds | server/controllers/productController.js:254 | rounding to one decimal keeps a value between two whole tenths between them |
| PaymentController.Sanitize | server/controllers/paymentController.js:21 | the sanitised text is no longer than the input and holds only ASCII letters, digits and spaces |
| PaymentController.SanitizeConcat | server/controllers/paymentController.js:21 | sanitising works piecewise over a concatenation |
| PaymentController.SanitizeMembers | server/controllers/paymentController.js:21 | a character survives exactly when it is in the input and is a letter, digit or space |
| PaymentController.SanitizeKept | server/controllers/paymentController.js:21 | text made only of kept characters is unchanged, so kept characters keep their order |
| PaymentController.SanitizeIdempotent | server/controllers/paymentController.js:21 | sanitising twice gives the same as sanitising once |
| PaymentController.KeptAscii | server/controllers/paymentController.js:21 | sanitised text is ASCII |
| PaymentController.ShortOrderId | server/controllers/paymentController.js:17 | the short id is the last six characters of the id (all of a shorter id) |
| PaymentController.Description | server/controllers/paymentController.js:21 | the description holds only ASCII letters, digits and spaces |
| PaymentController.DescriptionShape | server/controllers/paymentController.js:17-21 | the description is `Thanh toan don hang ` followed by the sanitised short id; it is never empty, so the default order text is never used |
| PaymentController.ClientIp | server/controllers/paymentController.js:22 | the client address is the request's when it has a non-empty one, and `127.0.0.1` otherwise |
| PaymentController.LinkInputsValid | server/controllers/paymentController.js:19-24 | the arguments handed to the link builder are ASCII and the clock readings valid |
| PaymentController.CreateVNPayment | server/controllers/paymentController.js:4-29 | an unknown order gets 404 with no URL; a known one gets 200 and the link for its total, its description and the client address |
| PaymentController.PaidAmount | server/controllers/paymentController.js:49 | `paidAmount` exists exactly when the echoed amount parses, and is the parsed integer over 100 |
| PaymentController.CallbackUpdate | server/controllers/paymentController.js:44-61 | code `00` asks for completed and paid with the echoed amount over 100 (`NaN` when it does not parse); any other code asks for cancelled and failed and no amount |
| PaymentController.CallbackReply | server/controllers/paymentController.js:44-66 | the reply is 200 with success exactly for code `00` and 400 for any other code; it takes nothing but the code |
| PaymentController.VerifyVNPayment | server/controllers/paymentController.js:40-76 | as written: a callback for a stored order settles that order through the strict update and leaves every other order alone; an unknown id changes nothing; the reply depends on the code alone, whatever the amount and whether or in what state the order exists |
| PaymentController.SettleOutcome | server/controllers/paymentController.js:44-61 | as written, code `00` leaves the order completed and any other code cancelled; payment status and paid amount keep their earlier values, `updatedAt` is stamped, and no other field changes |
| PaymentController.AmountIgnored | server/controllers/paymentController.js:44-50 | as written, the echoed amount has no effect on the stored order |
| PaymentController.LaterCallbackWins | server/controllers/paymentController.js:44-61 | as written, with no guard on the current state, a later callback leaves the order exactly as if the earlier one had not happened |
| PaymentController.DeclaredUpdate | server/controllers/paymentController.js:44-61 | with the payment paths declared, the update fails to cast exactly for code `00` with an amount that does not parse, and is otherwise the callback's update |
| PaymentController.DeclaredReply | server/controllers/paymentController.js:44-75 | with the payment paths declared, the reply is 200 for code `00` with a parsable amount, 500 for code `00` with `NaN`, and 400 for any other code |
| PaymentController.VerifyVNPaymentDeclared | server/controllers/paymentController.js:40-76 | with the payment paths declared: a stored order is settled with its payment recorded, other orders are kept, an unknown id changes nothing, and the reply is the declared reply |
| PaymentController.SettleDeclaredOutcome | server/controllers/paymentController.js:44-61 | with the payment paths declared, code `00` with a parsable amount leaves the order completed and paid with that amount; any other code leaves it cancelled and failed with its earlier amount; no other field changes |
| PaymentController.LaterDeclaredCallbackWins | server/controllers/paymentController.js:44-61 | with the payment paths declared, a later callback that is written overrides the status and payment status of an earlier one, and its amount if it succeeded |
| PaymentController.SchemasAgreeOnStatus | server/controllers/paymentController.js:44-66 | where the declared update casts, both schemas give the same reply and the same order apart from payment status and paid amount |
| PaymentController.EchoedParsed | server/controllers/paymentController.js:49 | an echoed integer `n` is recorded as `n / 100` |
| PaymentController.EchoedAmountPaid | server/controllers/paymentController.js:49 | when the gateway echoes the amount of the link, the recorded amount is 1000 times the order total (for totals with at most five decimals) |
| TransactionModel.CastItems | server/models/transactionModel.js:10-20 | every cast item keeps its product id |
| TransactionModel.NewTransaction | server/models/transactionModel.js:3-43 | a document is created exactly when the input passes validation; it is well formed, with the status given or `pending`, both timestamps now, and no payment fields; otherwise the failing path is one of the required or enumerated ones |
| TransactionModel.DefaultIsPending | server/models/transactionModel.js:25-29 | an order created without a status is `pending` |
| TransactionModel.RequiredPaths | server/models/transactionModel.js:5-40 | a missing user, a missing item product id, a missing total or an empty payment method is refused, each under its own path |
| TransactionStore.ApplyUpdateStrict | server/models/transactionModel.js:3-43 | under the schema as written an update writes status and `updatedAt` only; payment status and paid amount are dropped |
| TransactionStore.ApplyUpdate | server/controllers/paymentController.js:46-61 | with the payment paths declared, each field given in the update is written, each field left out keeps its value, `updatedAt` is stamped, and nothing else changes |
| TransactionStore.StrictDropsPayment | server/controllers/paymentController.js:46-50 | as the schema stands, a successful callback leaves the order completed but without payment status or paid amount |
| TransactionStore.DeclaredKeepsPayment | server/controllers/paymentController.js:46-50 | with both fields declared, a successful callback records `paid` and the amount |
| TransactionStore.StatusOnlyAgrees | server/controllers/transactionController.js:127-131 | for a status-only update the two schemas agree |
| TransactionStore.Listing | server/controllers/transactionController.js:86 | the listing holds one record per stored id, in insertion order |
| TransactionStore.Store.All | server/controllers/transactionController.js:163 | `find()` returns as many orders as are stored |
| TransactionStore.Store.Insert | server/controllers/transactionController.js:17 | saving a new id stores the record and appends the id; a taken id changes nothing |
| TransactionStore.Store.FindByIdAndUpdate | server/controllers/transactionController.js:127-131 | a stored order is replaced by its strict update (status and `updatedAt` only) and returned; an unknown id returns nothing and changes nothing; the listing order is kept |
| TransactionStore.Store.FindByIdAndUpdateDeclared | server/controllers/paymentController.js:46-61 | with the payment paths declared, a stored order is replaced by its full update and returned; an unknown id returns nothing and changes nothing |
| TransactionStore.Store.FindById | server/controllers/paymentController.js:7 | the lookup finds exactly the stored orders, with their own id |
| TransactionController.Where | server/controllers/transactionController.js:101-103 | a filter keeps exactly the orders meeting the criterion, and no more of them than there were |
| TransactionController.WhereAppend | server/controllers/transactionController.js:166-173 | filtering distributes over concatenation |
| TransactionController.RevenueAppend | server/controllers/transactionController.js:91-96 | revenue is additive over concatenation |
| TransactionController.RevenueOfCompleted | server/controllers/transactionController.js:91-96 | total revenue is the sum of the totals of the completed orders only |
| TransactionController.NoCompletedNoRevenue | server/controllers/transactionController.js:91-96 | with no completed order the revenue is 0 |
| TransactionController.CountsPartition | server/controllers/transactionController.js:99-104 | when every status is in the enumeration, completed + pending + cancelled = total orders |
| TransactionController.AverageOrderValue | server/controllers/transactionController.js:105 | the average is 0 with no completed order and otherwise revenue over the completed count |
| TransactionController.NewerFirstOrders | server/controllers/transactionController.js:88 | newest-first is a strict weak order |
| TransactionController.AllTransactions | server/controllers/transactionController.js:84-112 | the admin listing is a newest-first permutation of all orders, with total, revenue over completed orders, and counts that add up when statuses are in the enumeration |
| TransactionController.SortedListing | server/controllers/transactionController.js:86-104 | the sorted listing is a newest-first permutation whose revenue and counts are those of the completed and per-status orders |
| TransactionController.NewestFirst | server/controllers/transactionController.js:37-38 | sorting by creation time descending is a permutation ordered newest first |
| TransactionController.History | server/controllers/transactionController.js:35-43 | the history holds exactly the caller's orders, newest first |
| TransactionController.GetTransactionById | server/controllers/transactionController.js:55-72 | an order is returned with 200 only when both its id and its user match; otherwise 404 and nothing |
| TransactionController.UpdateTransactionStatus | server/controllers/transactionController.js:124-144 | the status, and only the status (and `updatedAt`), changes, to any value; an unknown id gets 404 and changes nothing |
| TransactionController.CreateTransaction | server/controllers/transactionController.js:5-31 | a valid order under a fresh id is stored `pending`, owned by the caller, and answered 201; an invalid one is answered 500 and nothing changes |
| TransactionController.Growth | server/controllers/transactionController.js:197-198 | a growth figure has no finite value exactly when the earlier figure is 0 |
| TransactionController.WindowsSplit | server/controllers/transactionController.js:166-173 | the this-month and last-month windows are disjoint and together make up every order since the start of last month, in count and in revenue |
| TransactionController.DashboardStats | server/controllers/transactionController.js:156-204 | the totals and window figures are the folds over all orders and over each window; both growth figures stay 0 when last month has no orders, and are the percentage changes otherwise |
| ProductModel.NewReview | server/models/productModel.js:3-27 | a review is created exactly when its rating is in 1..5 and comment and reviewer name are non-empty; the date defaults to now and `edited` to false |
| ProductModel.Trim | server/models/productModel.js:49-53 | the trimmed title has no white space at either end, and is empty exactly when the title is all white space |
| ProductModel.NewReviews | server/models/productModel.js:103 | the reviews of a product are cast one by one |
| ProductModel.NewProduct | server/models/productModel.js:34-118 | a product is created exactly when it passes validation and has `meta` (without it the pre-save hook throws); it is well formed (price and stock at least 0, discount in 0..100, rating in 0..5, availability in the enumeration), with its defaults (discount 0, rating 0, `In Stock`, minimum order 1), its `meta` with `createdAt` as given or now and `updatedAt` stamped, and timestamps now |
| ProductModel.BlankTitleRefused | server/models/productModel.js:49-53 | a title of white space only is refused |
| ProductModel.ProductDocument.PushReview | server/controllers/productController.js:249 | the review is appended at the end of the embedded array |
| ProductModel.ProductDocument.PreSave | server/models/productModel.js:115-118 | the hook stamps `meta.updatedAt` and changes nothing else; on a document without `meta` it fails and changes nothing |
| ProductModel.ProductDocument.Save | server/models/productModel.js:47-118 | saving succeeds exactly when the document is well formed and has `meta`, and then stamps `meta.updatedAt` and `updatedAt` only; a refused save changes nothing |
| ProductController.ValidateReview | server/controllers/productController.js:217-230 | a request passes exactly when rating, comment and reviewer name are present and the rating is in 1..5; a falsy field gets the "required" message, an out-of-range rating the range message |
| ProductController.ValidatedIsAdmissible | server/controllers/productController.js:217-249 | passing the handler's checks is the same as passing the review schema |
| ProductController.SumRatingsBounds | server/controllers/productController.js:253 | the sum of valid ratings lies between the count and five times the count |
| ProductController.MeanRatingBounds | server/controllers/productController.js:252-254 | the mean of valid ratings, and its rounding to one decimal, lie in 1..5 |
| ProductController.HandleReview | server/controllers/productController.js:212-272 | an invalid request gets 400 before any lookup; an unknown product gets 404; otherwise exactly one review is appended, the rating becomes the rounded mean of all ratings and the product stays well formed; it is saved with 200, or, without `meta`, the save fails with 500 and no stamp |
| ProductController.AddReview | server/controllers/productController.js:171-208 | an unknown product gets 404; a review the schema refuses gets 400 and nothing is saved; otherwise exactly one review is appended and the rating becomes the mean of all ratings, which lies in 1..5; it is saved with 200, or, without `meta`, the save fails with 400 and no stamp |
| ProductController.SliceIndex | server/controllers/productController.js:320 | a slice bound is clamped into the sequence |
| ProductController.JsSlice | server/controllers/productController.js:320 | a slice is no longer than the sequence |
| ProductController.KeepRating | server/controllers/productController.js:298-300 | the filter keeps exactly the reviews whose rating equals the parsed number, and none when it does not parse |
| ProductController.ComparatorOrders | server/controllers/productController.js:303-315 | every review comparator is a strict weak order |
| ProductController.GetUserReview | server/controllers/productController.js:276-329 | an unknown product gets 404; otherwise 200 with the page of the filtered reviews sorted in place |
| ProductController.FilterExact | server/controllers/productController.js:298-300 | with a rating filter, exactly the reviews of that rating are listed; an unparsable filter lists none; without a filter every review is listed |
| ProductController.ListingOrder | server/controllers/productController.js:303-315 | the listing is a permutation, ordered by date or by rating in the requested direction; any other `sortBy` leaves the filtered order unchanged |
| ProductController.PageSlice | server/controllers/productController.js:318-320 | a page is the slice from `(page-1)*limit` to `page*limit`, clamped, and has at most `limit` items |
| ProductController.PageFigures | server/controllers/productController.js:322-328 | `totalReviews` is the filtered count, `hasMore` holds exactly when `page*limit` is below it, `totalPages` is its ceiling over `limit`, and `currentPage` is the page asked for |
| ProductController.BuildProductQuery | server/controllers/productController.js:26-76 | the category and brand filters hold the given text exactly when it is given (non-empty); a price filter exactly when a bound is given, with `$gte`/`$lte` for each given bound; `priceAsc`, `priceDesc`, `rating` and anything else map to price up, price down, rating down and newest first; limit defaults to 10 and skip is `(page-1)*limit` |
| ProductController.ProductsPageFigures | server/controllers/productController.js:71-86 | the reply's `currentPage` is the page asked for and `total` the total; `totalPages` is missing only for a zero limit; otherwise that many pages of `limit` cover the total and one fewer do not, and the page the query skips to holds products exactly when its number is at most `totalPages` |
| ProductController.PagesCover | server/controllers/productController.js:71-84 | a page starts inside the results exactly when its number is at most `totalPages` |
| ProductController.CeilDivBetween | server/controllers/productController.js:84 | `totalPages` pages of `limit` cover the total and one fewer do not |
| CartContext.InitialState | client/context/cartContext.js:8-11 | the cart starts with no items and total 0 |
| CartContext.QtyOrOne | client/context/cartContext.js:27 | a missing or zero quantity counts as one; any other is kept |
| CartContext.FindIndex | client/context/cartContext.js:17-19 | the first position holding the id, or -1 exactly when no item has it |
| CartContext.Bump | client/context/cartContext.js:23-31 | only the item at the position gets its quantity raised; the others are unchanged |
| CartContext.SetQuantity | client/context/cartContext.js:61-69 | every item with the id gets the new quantity; the others are unchanged |
| CartContext.AddExisting | client/context/cartContext.js:17-37 | adding an item already present keeps the length, raises that item's quantity by the payload quantity or 1, leaves the others alone and recomputes the total |
| CartContext.AddNew | client/context/cartContext.js:40-50 | adding a new id appends it at the end with the payload quantity or 1 and adds price times quantity to the old total, so any gap between total and sum is carried along |
| CartContext.AddKeepsDistinct | client/context/cartContext.js:16-50 | adding keeps item ids pairwise distinct |
| CartContext.WithoutMembers | client/context/cartContext.js:53 | the filter keeps exactly the items with another id |
| CartContext.WithoutConcat | client/context/cartContext.js:53 | the filter works piecewise, so survivors keep their relative order |
| CartContext.WithoutNone | client/context/cartContext.js:53 | removing an id no item has changes nothing |
| CartContext.WithoutSubsequence | client/context/cartContext.js:53 | the filter never lengthens the list and keeps ids distinct |
| CartContext.Remove | client/context/cartContext.js:52-58 | after removal no item has the id, the survivors keep their order, the total is the sum over them, and distinct ids stay distinct |
| CartContext.Update | client/context/cartContext.js:60-75 | only the quantities of items with the id change; length, ids and order are kept, and the total is the sum |
| CartContext.OtherActions | client/context/cartContext.js:77-85 | clearing gives no items and total 0, loading gives the payload, and an unknown action returns the state unchanged |
| CartContext.ReducerKeepsConsistent | client/context/cartContext.js:14-86 | every action keeps the total equal to the sum of price times quantity, given a consistent payload for a load |
| CartContext.ReducerKeepsDistinct | client/context/cartContext.js:14-86 | every action keeps item ids pairwise distinct, given distinct ids in a loaded payload |
| CartContext.AddNewKeepsDrift | client/context/cartContext.js:46-50 | adding a new item to a cart whose total is off does not repair it |

## Left out

- HMAC-SHA512 is a parameter of the model. Only the place of its result in the URL is modelled; the hash itself is not.
- The clock and time zone are parameters. This covers `moment()` for the reference and the creation stamp, `process.env.TZ`, `new Date()` for review dates and timestamps, and the month boundaries of the dashboard. So are the four environment variables, passed as a configuration record.
- `encodeURIComponent` is modelled on ASCII text only. It is not modelled on other characters, where it would use UTF-8 escapes, or on lone surrogates, where it would throw `URIError`. The payment inputs are required to be ASCII: a sanitised description always is, and a client address, terminal code and return URL are in practice.
- PaymentLink.SortObject: requires an ASCII object. For the twelve gateway keys, a key that encoding would change does not occur. The result is modelled as a list in the order of the sorted keys. A JavaScript object lists array-index keys (such as `"9"` and `"10"`) first and in numeric order, so for an object with such keys the source joins the entries in another order than the model. None of the twelve gateway keys is an array index, so `createPaymentLinkAD` never meets this case.
- Floating point is not modelled; amounts, prices, quantities and ratings are reals. This covers `amount * 100000`, `/ 100`, the mean rating, the growth percentages and the cart total. `toFixed(1)` is modelled as rounding to one decimal read back as a number; the string the source stores is not. A division by a zero revenue, which gives `Infinity` or `NaN` in the source, is `None`.
- JavaScript coercion of query strings is not modelled. `page`, `limit` and the price bounds arrive as strings and are multiplied or passed to `Number`. The model takes `page` and `limit` as integers and `Number` as a function parameter. A quantity of `NaN` in the cart is also not modelled.
- The case-insensitive `RegExp` category and brand filters are not modelled: the query records the given text, not regular-expression matching.
- Running the product query is not modelled: the Mongo engine, `countDocuments`, `skip` and `limit`. The page figures are stated for a given total.
- The tie order of Mongo's `sort({ createdAt: -1 })` is not modelled. The model uses a stable sort, so orders created at the same time keep their stored order.
- `populate('user', 'name email')` is not modelled; the user is kept as an id.
- Any thrown error other than a schema validation failure, a `NaN` amount under the declared payment schema, or the missing-`meta` failure of the product hook is not modelled: a lost database connection and the 500 replies it leads to.
- Ids are plain keys. An id that is not a valid ObjectId makes `findById`, `findOne` and `findByIdAndUpdate` throw a cast error in the source, answered 500 by `createVNPayment`, `verifyVNPayment`, `getTransactionById`, `updateTransactionStatus`, `handleReview` and `getUserReview`, and 400 by `addReview`. The model treats such an id like an unknown one: 404, or no change.
- ProductController.HandleReview: requires the stored product to pass the schema's validators, as a saved document does. With that, the save after the push fails only for a product without `meta`, which is modelled; a failure of validation at that point is not.
- ProductModel.ProductDocument.Save: a failed save leaves the document as it was. The in-memory `updatedAt` stamp that the `timestamps` hook may already have set on the discarded document is not modelled.
- ProductController.AddReview: requires the stored product to be well formed. When the schema refuses the new review, the source has already pushed it onto the in-memory document before `save()` fails with 400. The model states only that nothing is saved, and leaves the document untouched.
- `CartProvider`'s AsyncStorage load and save effects and `authContext.js` are I/O and are not part of this model.
- Express routing, `server.js`, `index.js` and `userModel.js` are not part of this model. The payment handlers are not routed at all.
- The React screens and components are view code and are not part of this model.
- Mongoose's `unique` index on `sku` is not modelled: it needs the whole collection.

## Findings

| source | as written | input that shows it | evidently intended | confidence | as-written member | corrected member |
|---|---|---|---|---|---|---|
| server/controllers/paymentController.js:46-50 | the successful callback writes `paymentStatus` and `paidAmount`, but server/models/transactionModel.js:3-43 declares neither, so under Mongoose's default strict mode `findByIdAndUpdate` drops both and stores only the status | any callback with `vnp_ResponseCode=00` for a stored order: the order becomes `completed` with no payment status and no paid amount | the schema declares `paymentStatus` and `paidAmount`, so the payment is recorded | medium, not executed | PaymentController.VerifyVNPayment, PaymentController.SettleOutcome, TransactionStore.StrictDropsPayment | PaymentController.VerifyVNPaymentDeclared, PaymentController.SettleDeclaredOutcome, TransactionStore.DeclaredKeepsPayment |
