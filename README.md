# isyana-store core, modelled in Dafny

isyana-store is a small Go web shop backed by PostgreSQL. Buyers keep a cart
of order lines, check out, and get a purchase record. Sellers manage
products and vouchers. This project models the core of that system:

- **Cart admission** (`services/order/handler.go`):
  - adding a line checks the input, then the 20-row limit, then the product's stock;
  - it inserts the line, or overwrites the quantity when the (product, user) pair already has a row;
  - updating a line, and the two reads of a user's lines.
- **Checkout** (`services/transaction/handler.go`), one database transaction that:
  - claims the listed IN_CART lines;
  - inserts the purchase record with the summed amount;
  - bulk-copies one link row per listed id;
  - decrements stock once per listed id;
  - collects the lines that went below zero;
  - commits only when there are none.
- **Seller products and vouchers** (`services/seller/product_handler.go`, `services/seller/voucher_handler.go`): field checks, inserts, owner-only updates, and reads.
- **Validators** (`pkg/validator/onlyLetter.go`): the rune loops that reject symbols and weak passwords.
- **The `.env` loader** (`pkg/utils/load_env.go`): a line scanner that fills the process environment.
- **The authentication middleware** (`middleware/auth.go`): the Authorization-header decision and the context key the handlers read the claims from.

How the model is built:

- **The database** is one `Store.Database` object whose five tables are sequences of rows. `Valid()` states the constraints the handlers rely on:
  - the primary keys;
  - the unique (product_id, user_id) pair of `orders`;
  - positive order quantities;
  - non-negative stock.
- **Every SQL statement** becomes a function on those sequences. A handler is a method that assigns the new tables.
- **What the Go code gets from libraries** comes in as parameters:
  - `isUuid` for `uuid.Parse`;
  - fresh-id parameters for `uuid.New`, each required to be unused;
  - a `Fault` value saying which statement the database refuses;
  - a `CheckoutFault` for checkout's steps, which can also be a bulk copy reporting a wrong row count;
  - a `RuneClasses` value for the `unicode` tables, pinned down on ASCII by `AsciiAgrees`;
  - an `EnvFile` for the opened `.env` file;
  - a `parse` function for `jwt.ParseWithClaims`.
- **Go's `len`** of a string counts UTF-8 bytes. `Text.ByteLen` computes exactly that, so every length limit is stated in bytes, as in the code.

Behaviour of the code that is easy to misread:

- Checkout refuses a payment method of at most one byte, not only an empty one.
- The purchase amount is the sum over all of the user's COMPLETED lines, including earlier purchases, not only the lines claimed now.
- The claim flips every listed IN_CART line, including other users' lines.
- A bulk copy with the wrong row count is a 500, not a client error.
- The uniqueness of (product, user) holds over all rows, whatever their status.
- Voucher types are "VOS", "VOM" and "VOC" with the letter O; the field's comment writes them with a zero.
- `updateProduct` reports a failing statement as "No rows were updated." (400), because the command tag of a failed statement has no rows.
- The returned purchase record carries the payment method in its invoice field, because the scan writes both the invoice and the payment_method column into it. The stored row keeps the invoice URL.
- `getProducts` without a category runs the query that has no parameter, so only the category query can be refused for its parameter's text (the 409).
- The `.env` quote removal uses `strings.Trim`, so a value enclosed in quotes loses every quote at both ends, not one pair, and a lone `"` becomes empty.

## Model

| member | source | states |
|---|---|---|
| Text.ByteLen | services/seller/product_handler.go:43 | Go's `len` of a string is between its rune count and four times it, and zero exactly for the empty string |
| Text.ByteLenAscii | services/seller/product_handler.go:43 | for pure-ASCII text the byte length equals the rune count |
| Text.IsSpace | pkg/validator/onlyLetter.go:10 | on Latin-1 the space runes are exactly tab, newline, vertical tab, form feed, carriage return, space, U+0085 and U+00A0 |
| Text.TrimSpaceStrips | pkg/utils/load_env.go:19 | `strings.TrimSpace` removes space runes from the two ends and nothing else, and what is left neither starts nor ends with a space |
| Text.TrimStrips | pkg/utils/load_env.go:35-37 | `strings.Trim` leaves the input minus a selected prefix and a selected suffix, and what is left neither starts nor ends with a selected rune |
| Text.TrimKept | pkg/utils/load_env.go:35-37 | a text whose ends are not selected is its own trim, and the trim is empty exactly when every rune is selected |
| Text.TrimExact | pkg/utils/load_env.go:35-37 | the trim is determined: a stretch with kept ends and only selected runes around it is exactly what `Trim` returns |
| Text.Cut | pkg/utils/load_env.go:25-28 | a two-part `SplitN` exists exactly when the separator occurs; the first part holds no separator and the parts glue back to the input |
| Text.Split | middleware/auth.go:44 | `strings.Split` yields at least one part, no part contains the separator, and joining the parts gives the input back |
| Text.SplitJoin | middleware/auth.go:44-45 | splitting parts free of the separator after joining them returns those parts |
| Store.FindOrder | services/order/handler.go:315 | the lookup by primary key finds an index holding that id, and finds none exactly when no row has it |
| Store.FindProduct | services/order/handler.go:89 | the lookup by primary key finds an index holding that id, and finds none exactly when no row has it |
| Store.RewriteKeepsOrdersOk | services/order/handler.go:138-140 | an UPDATE that keeps each row's id, product and user and leaves quantities positive keeps the orders constraints |
| OrderHandler.RowsOfUser | services/order/handler.go:56-57 | the count query sees exactly the rows whose user_id is the user's, of any status |
| OrderHandler.RowsOfUserCounted | services/order/handler.go:56-57 | the count query sees each of the user's rows as many times as the table holds it and no other row, so the cart limit compares 20 with the number of the user's rows |
| OrderHandler.StockOf | services/order/handler.go:88-90 | the stock query returns no row exactly when the product id is unknown, and otherwise that product's stock |
| OrderHandler.FindLine | services/order/handler.go:135-137 | the unique (product, user) pair is taken exactly when some row carries it, and the index found carries it |
| OrderHandler.SetQuantity | services/order/handler.go:138-149 | the fallback UPDATE changes only the quantity, and only on rows with the given product and user; every other row is unchanged |
| OrderHandler.OverwriteLine | services/order/handler.go:203-215 | `updateOrder`'s UPDATE overwrites note, source, status and quantity on the rows matching (product, user), whatever the line's own id, and leaves every other row as it was |
| OrderHandler.OverwriteUnmatched | services/order/handler.go:203-238 | when no row has the (product, user) pair, the UPDATE changes nothing, and `updateOrder` still reports success |
| OrderHandler.AppendKeepsOrdersOk | services/order/handler.go:114-130 | inserting a row with an unused id, an unused (product, user) pair and a positive quantity keeps the orders constraints |
| OrderHandler.OnlyRowWithId | services/order/handler.go:330 | under the primary key, the row with a given id is the only one |
| OrderHandler.AddToOrder | services/order/handler.go:40-187 | 400 invalid input exactly for a non-positive quantity or a non-UUID product id. Then 400 cart limit exactly when the count query succeeds and the user owns 20 or more rows. Then 400 insufficient stock exactly when only the new quantity exceeds the stock. Success returns the order with the fresh id and either appends exactly that row or, when the pair is taken, overwrites only the quantity. Every failure leaves the table unchanged, and the constraints hold afterwards |
| OrderHandler.InsertLine | services/order/handler.go:114-185 | a failing insert is a 500 that changes nothing. A taken (product, user) pair makes the insert fail on the unique constraint, and the fallback UPDATE overwrites only that row's quantity, or is a 500 when it fails. Otherwise exactly the new row is appended. Success returns the row with its fresh id, and the constraints hold afterwards |
| OrderHandler.UpdateOrder | services/order/handler.go:188-240 | 400 exactly for a non-positive quantity or a non-UUID id. Otherwise success unless the statement fails, with the table overwritten by `OverwriteLine`, no stock check, and success even when no row matched. The constraints hold afterwards |
| OrderHandler.GetMyOrders | services/order/handler.go:242-298 | 400 for a non-UUID user id and 500 for a failing query. Success lists exactly the user's rows, of any status, each as many times as the table holds it |
| OrderHandler.GetMyOrderById | services/order/handler.go:300-358 | 400 for a non-UUID user id and 500 for a failing query. A success with data holds the row with that id owned by that user. A success without data means no row with that id belongs to the user |
| TransactionHandler.ClaimRows | services/transaction/handler.go:74-78 | the claim flips exactly the listed IN_CART rows to COMPLETED, whoever owns them, and leaves every other row as it was |
| TransactionHandler.ClaimCount | services/transaction/handler.go:91-101 | the affected-row count is zero exactly when no row is both listed and IN_CART |
| TransactionHandler.SumAppend | services/transaction/handler.go:121 | the SUM over two runs of rows is the sum of their SUMs |
| TransactionHandler.Amount | services/transaction/handler.go:113-128 | the SUM is NULL, and the scan into an int fails, exactly when the user has no COMPLETED row whose product the JOIN finds |
| TransactionHandler.NoCompletedValues | services/transaction/handler.go:121-122 | the summed values are empty exactly when the user has no COMPLETED row with a known product |
| TransactionHandler.ClaimAmount | services/transaction/handler.go:74-123 | after the claim, the sum is the user's previously COMPLETED lines plus the user's lines this claim completes |
| TransactionHandler.QuantityFor | services/transaction/handler.go:191-193 | with non-negative quantities, what one decrement takes is non-negative |
| TransactionHandler.Target | services/transaction/handler.go:191-193 | the decrement's join finds the order row with the listed id and the product row that order names |
| TransactionHandler.DecrementOne | services/transaction/handler.go:191-193 | one queued UPDATE lowers each product's stock by what that order takes from it and nothing else. It returns a row exactly when the join matches, carrying the order id, its quantity and the new stock |
| TransactionHandler.NoTargetTakesNothing | services/transaction/handler.go:191-193 | an id the join does not match takes nothing from any product |
| TransactionHandler.Decrements | services/transaction/handler.go:188-194 | after the batch, each product's stock is its old stock minus the total the listed ids take from it, duplicates counted again, with at most one returned row per id |
| TransactionHandler.DecrementsRows | services/transaction/handler.go:188-229 | the batch returns exactly one row per listed id whose join matches, in list order, carrying that id, its order's quantity and its product's stock right after that statement |
| TransactionHandler.Shortfalls | services/transaction/handler.go:236-246 | the outOfStock list is empty exactly when every returned stock is non-negative, and holds exactly the details of the rows that went negative |
| TransactionHandler.ShortfallsAppend | services/transaction/handler.go:206-247 | the details of rows read in two runs are those of the first run followed by those of the second, so the list keeps the order of the rows |
| TransactionHandler.ShortfallsOne | services/transaction/handler.go:236-243 | one row gives one detail, with the stock before the decrement, exactly when its new stock is negative |
| TransactionHandler.OversellDetected | services/transaction/handler.go:236-251 | from non-negative stock, the batch reports no shortfall exactly when it leaves every product's stock non-negative |
| TransactionHandler.DetailIsPriorStock | services/transaction/handler.go:189-243 | the row the k-th statement returns, read as a detail, holds the k-th id, the stock its product had after the earlier statements and just before its own, and the order's quantity |
| TransactionHandler.DecrementsKeepIds | services/transaction/handler.go:191-193 | the decrements keep the products' primary key |
| TransactionHandler.AppendTransactionKeepsOk | services/transaction/handler.go:113 | inserting the purchase record under an unused id keeps the transactions primary key |
| TransactionHandler.AppendLinksKeepsOk | services/transaction/handler.go:153-160 | copying link rows with distinct, unused ids keeps the links primary key |
| TransactionHandler.LinksFor | services/transaction/handler.go:146-151 | one link per listed id, in list order, duplicates and unclaimed ids included, each with its fresh id and the transaction id |
| TransactionHandler.LinkRows | services/transaction/handler.go:146-151 | the loop builds exactly `LinksFor` |
| TransactionHandler.RunDecrements | services/transaction/handler.go:188-249 | the batch loop completes exactly when none of its statements fails, and then yields the decremented products and the outOfStock list in order |
| TransactionHandler.CommitKeepsValid | services/transaction/handler.go:278 | a commit reached without shortfalls leaves every table within its constraints |
| TransactionHandler.Outcome | services/transaction/handler.go:45-296 | checkout succeeds exactly when every statement up to the batch goes through, no decrement leaves a stock negative and the commit succeeds. A claim that completes nothing is the 400 "No orders found", and negative stock is the 400 insufficient stock carrying the details. A success carries data and no error; every other outcome is "failed" with an error and no data |
| TransactionHandler.InvalidInputFirst | services/transaction/handler.go:47-56 | the response is the 400 invalid input exactly when the payment method has at most one byte or no id is listed, whatever the tables hold |
| TransactionHandler.NothingClaimedRejected | services/transaction/handler.go:91-101 | past the input check and the claim statement, the response is the 400 "No orders found" exactly when no listed id is an IN_CART row |
| TransactionHandler.SingleRunePaymentMethod | services/transaction/handler.go:47 | a one-rune payment method is refused exactly when that rune is ASCII |
| TransactionHandler.OversoldCartIsRejected | services/transaction/handler.go:188-262 | once the batch is reached, the 400 insufficient stock is returned exactly when the decrements would leave some product below zero, and its details are the returned rows that went negative, in order |
| TransactionHandler.CheckoutAmount | services/transaction/handler.go:103-128 | a successful checkout returns a record with the fresh id, discount 0, equal pre-discount and final amounts, and amounts equal to the user's earlier COMPLETED lines plus the user's lines just claimed. Its invoice field holds the payment method |
| TransactionHandler.RepeatedIdDecrementsTwice | services/transaction/handler.go:189-194 | an id listed twice takes its quantity twice |
| TransactionHandler.RunCheckout | services/transaction/handler.go:57-289 | the statements run on local tables give exactly `Outcome`. On success they give the claimed orders, the decremented products, one appended purchase record with the invoice URL, and the links |
| TransactionHandler.CommitTables | services/transaction/handler.go:278 | the commit installs the built tables and the database is valid |
| TransactionHandler.Checkout | services/transaction/handler.go:45-296 | the response is `Outcome` of the old tables and the database stays valid. Every failure leaves all four tables unchanged, which is the rollback. Success makes the claim, the purchase record, the links and every decrement durable together |
| ProductHandler.InvalidFields | services/seller/product_handler.go:43 | valid fields mean a name of 2 to 99 runes, a description under 200 runes, a price of 100 to 100000000 and non-negative stock |
| ProductHandler.AsciiFields | services/seller/product_handler.go:114 | for ASCII text the check accepts exactly names of 6 to 99 characters, descriptions under 200, prices of 100 to 100000000 and stock of at least 0 |
| ProductHandler.InsertedRow | services/seller/product_handler.go:55-67 | the inserted row has the fresh id, the caller as seller, the sent name, description, price and stock, and no category |
| ProductHandler.AppendKeepsProductsOk | services/seller/product_handler.go:55-68 | inserting an unused id with non-negative stock keeps the products constraints |
| ProductHandler.PostProduct | services/seller/product_handler.go:42-88 | 400 exactly for invalid fields and 500 when the insert fails. Success appends the inserted row and returns the product with the fresh id and seller. Every failure changes nothing |
| ProductHandler.UpdateOwned | services/seller/product_handler.go:125-140 | no row is affected exactly when no row has both the id and the caller as seller. Otherwise exactly those rows get the new name, description, price and stock, and every other row is unchanged |
| ProductHandler.UpdateKeepsProductsOk | services/seller/product_handler.go:125-138 | an owner's update with non-negative stock keeps the products constraints |
| ProductHandler.UpdateProduct | services/seller/product_handler.go:90-168 | the checks come in order: "Missing id" exactly for an empty id, "Product id is invalid" exactly for a non-UUID id, then invalid fields. "No rows were updated." comes exactly when the statement fails or the caller owns no such product. Success installs `UpdateOwned`; every failure changes nothing |
| ProductHandler.RowsWithId | services/seller/product_handler.go:175-176 | the query returns exactly the rows with that id |
| ProductHandler.RowsWithIdUnique | services/seller/product_handler.go:175-191 | under the primary key the query returns the one row the lookup finds, or none |
| ProductHandler.GetProductById | services/seller/product_handler.go:170-218 | a failing query is a 500, and an unknown id is the "sucess" response without data or errors. A success returns a row with that id, and a known id under the primary key is a success |
| ProductHandler.RowsWithIdCount | services/seller/product_handler.go:191 | under the primary key at most one row has a given id |
| ProductHandler.InCategory | services/seller/product_handler.go:240-241 | the category query returns exactly the rows of that category, each as many times as the table holds it |
| ProductHandler.GetProducts | services/seller/product_handler.go:220-291 | a non-empty, non-UUID category is a 400. A failing query is a 500, and the category query's parameter rejected as invalid text is the 409. Otherwise an empty category gives every product and a UUID gives exactly that category's products, each as many times as the table holds it |
| VoucherHandler.IsValidType | services/seller/voucher_handler.go:38-43 | a type is accepted exactly when it is "VO" followed by S, M or C |
| VoucherHandler.InvalidFields | services/seller/voucher_handler.go:46 | valid fields mean a name of at least 2 runes, a description under 200 runes and a three-rune type |
| VoucherHandler.ZeroSpellingRefused | services/seller/voucher_handler.go:18-43 | "VOS", "VOM" and "VOC" are accepted; the digit-zero spellings in the field's comment are refused |
| VoucherHandler.ValidTypeShape | services/seller/voucher_handler.go:38-43 | every accepted type is "V", "O" and one of S, M, C: three runes and three bytes |
| VoucherHandler.StatusAndPercentageUnchecked | services/seller/voucher_handler.go:46 | the field check ignores the status and the discount percentage |
| VoucherHandler.AppendKeepsVouchersOk | services/seller/voucher_handler.go:58-70 | inserting an unused id keeps the vouchers primary key |
| VoucherHandler.PostVoucher | services/seller/voucher_handler.go:45-89 | 400 exactly for a name of at most 5 bytes, a description of at least 200 bytes or an invalid type, and 500 when the insert fails. Success appends and returns the voucher with the fresh id and its other fields as sent. Every failure changes nothing |
| VoucherHandler.Overwrite | services/seller/voucher_handler.go:104-106 | the UPDATE replaces exactly the rows with the voucher's id and keeps every other row |
| VoucherHandler.OverwriteIdempotent | services/seller/voucher_handler.go:104-116 | sending the same voucher twice leaves the table as sending it once |
| VoucherHandler.OverwriteReadsBack | services/seller/voucher_handler.go:104-116 | after the update, a voucher whose id was in the table is in it exactly as sent |
| VoucherHandler.PutVoucher | services/seller/voucher_handler.go:91-135 | the same 400 and 500 conditions as the insert. Success overwrites by id and returns the voucher, even when no row has that id. Every failure changes nothing |
| VoucherHandler.Listed | services/seller/voucher_handler.go:139-157 | a listed voucher keeps id, name, description, status and percentage, and its type is empty because the column is not selected |
| VoucherHandler.Yielded | services/seller/voucher_handler.go:155 | the cursor yields no more rows than the table holds or it delivers, and stops at one of the two |
| VoucherHandler.GetAllVoucher | services/seller/voucher_handler.go:137-180 | a failing query or a failing scan of a yielded row is a 500. Otherwise success lists every yielded row in table order, with the type left empty |
| Validator.IsContainSymbol | pkg/validator/onlyLetter.go:7-16 | true exactly when some rune other than '_' is a symbol, a space or punctuation |
| Validator.ContainsSymbolAppend | pkg/validator/onlyLetter.go:8-13 | a concatenation is objected to exactly when one of its parts is |
| Validator.WordsPass | pkg/validator/onlyLetter.go:10 | letters, digits and '_' never trigger the check, so the empty string passes too |
| Validator.IsNotValidPassword | pkg/validator/onlyLetter.go:18-38 | rejected exactly when the byte length is at most 8 or at least 72, or no rune is upper case, or no rune is a symbol or punctuation |
| Validator.WideRunesByteLen | pkg/validator/onlyLetter.go:19 | runes from U+0800 to U+FFFF count three bytes each towards the length |
| Validator.ThreeWideRunesPassLength | pkg/validator/onlyLetter.go:19 | three runes of three bytes are 9 bytes, enough for the length check |
| Validator.EightAsciiTooShort | pkg/validator/onlyLetter.go:19-21 | eight ASCII characters are rejected whatever they are |
| Validator.AsciiPasswordAccepted | pkg/validator/onlyLetter.go:18-38 | an ASCII password of 9 to 71 characters with an upper-case letter and a punctuation or symbol character is accepted |
| Validator.UnderscorePasswordAccepted | pkg/validator/onlyLetter.go:22-37 | "Secret_123" is accepted: '_' is punctuation and supplies the symbol |
| EnvFile.Unquote | pkg/utils/load_env.go:34-38 | a value not enclosed in matching quotes is kept as it is |
| EnvFile.UnquoteStrips | pkg/utils/load_env.go:34-38 | an enclosed value loses enclosing quotes of that kind from both ends and nothing else, and is left with no such quote at either end; the double quote is tried first |
| EnvFile.UnquoteLoneQuote | pkg/utils/load_env.go:34-37 | a lone `"` or `'` counts as enclosed and becomes empty |
| EnvFile.UnquoteRepeated | pkg/utils/load_env.go:35 | every enclosing double quote goes: `""value""` becomes `value` |
| EnvFile.UnquoteDoubleFirst | pkg/utils/load_env.go:34-37 | double quotes are removed first, and single quotes inside them stay |
| EnvFile.UnquoteEnclosed | pkg/utils/load_env.go:34-35 | a value in one pair of double quotes, with no double quote at its own ends, loses exactly that pair |
| EnvFile.ParseLine | pkg/utils/load_env.go:19-38 | a parsed key never contains '=' |
| EnvFile.ParseLineCases | pkg/utils/load_env.go:19-38 | a line is parsed exactly when, trimmed, it is non-empty, does not start with '#' and holds '='. Then the key is the trimmed text before the first '=' and the value the trimmed, unquoted text after it |
| EnvFile.TrimSpaceInside | pkg/utils/load_env.go:19 | trimming keeps every rune that is not a space |
| EnvFile.ApplyLine | pkg/utils/load_env.go:19-41 | an ignored line leaves the environment unchanged. A parsed line that `os.Setenv` accepts sets its key to its value, and one it refuses changes nothing. Every other key keeps its value |
| EnvFile.ApplyParsed | pkg/utils/load_env.go:41 | `os.Setenv` on a parsed pair: when the pair is accepted the key holds the value and is the only key added; a refused pair changes nothing; every other key keeps its value |
| EnvFile.ParsedKeyRefused | pkg/utils/load_env.go:41 | `os.Setenv` refuses a parsed line exactly when its key is empty, as for "=value", or the key or the value holds a NUL; a parsed key never holds '=' |
| EnvFile.LoadEnvFile | pkg/utils/load_env.go:10-45 | an unopenable file is an error and sets nothing. Otherwise the lines apply in file order and the scanner's error is returned |
| EnvFile.ApplyLinesStep | pkg/utils/load_env.go:18-42 | one more iteration applies one more line |
| EnvFile.ApplyLinesAppend | pkg/utils/load_env.go:18-42 | applying a file in two pieces is applying it whole |
| EnvFile.LastAssignmentWins | pkg/utils/load_env.go:18-42 | the last accepted line setting a key decides its value, whatever the later lines set for other keys and whatever later lines `os.Setenv` refuses |
| EnvFile.KeepsOver | pkg/utils/load_env.go:18-42 | lines that do not set a key keep its value, whatever else they set |
| EnvFile.IgnoredLines | pkg/utils/load_env.go:21-28 | blank lines, comments and lines without '=' change nothing |
| EnvFile.ParseSpaced | pkg/utils/load_env.go:19-38 | spaces around the line, the key and the value are removed: the line reads back as the key and the unquoted value, and a value keeps any later '=' |
| EnvFile.ParsePlain | pkg/utils/load_env.go:25-31 | a plain `KEY=value` line reads back as that key and value |
| EnvFile.ParseQuoted | pkg/utils/load_env.go:34-35 | a double-quoted value loses its quotes |
| Auth.WithUser | middleware/auth.go:81 | the new context holds the claims under the user key and keeps every other key |
| Auth.UserFromContext | middleware/auth.go:22-25 | the handlers read whatever is stored under the user key |
| Auth.UserRoundTrip | middleware/auth.go:22-81 | what `UserFromContext` reads is exactly what the middleware stored |
| Auth.PlainKeyMisses | middleware/auth.go:15-19 | a plain string key "user" does not see the middleware's typed key |
| Auth.BearerToken | middleware/auth.go:44-55 | an accepted header is exactly "Bearer " followed by the token, which contains no space |
| Auth.BearerTokenExact | middleware/auth.go:44-45 | for a token without spaces, the header is accepted with that token exactly when it is "Bearer " + token |
| Auth.Authorize | middleware/auth.go:26-96 | an empty header is 401 "Missing token" and a malformed one is 401 with the format message. A token the parser rejects is 401 "Unauthorized ", and a parsed token that is not valid gets no response at all. The request reaches the next handler exactly when the header is well formed and the parser accepts the token as valid, and then with the claims under the user key |
| Auth.ForwardNeedsBearer | middleware/auth.go:44-86 | a forwarded request had the header "Bearer " + token, and the parser found that token valid |
| Auth.RejectedHeaders | middleware/auth.go:45 | the scheme is case-sensitive and the separator a single space: "bearer abc", "Bearer  abc" and "Bearer" are refused |
| Auth.EmptyTokenReachesParser | middleware/auth.go:44-58 | "Bearer " passes the format check and hands the parser an empty token |

## Left out

- HTTP plumbing (routers, JSON encoding and decoding, writing status codes) and logging are not modelled. Handlers return the response value they build.
- UUID parsing and generation are parameters: `isUuid`, and fresh ids assumed unused.
- JWT parsing, the HMAC signing-method check and the `SECRET_TOKEN` lookup are one `parse` parameter of `Auth.Authorize`.
- The Unicode symbol, punctuation and upper-case tables are a `RuneClasses` parameter, fixed only on ASCII.
- Strings are sequences of Unicode scalar values, so Go strings holding invalid UTF-8 (which `range` reads as U+FFFD) cannot be expressed.
- The file system and `bufio.Scanner` are the `EnvFile` value: the lines read, and whether the scan failed. The scanner's line-length limit is part of that failure.
- `os.Setenv` is modelled by its Unix rules and its error is dropped, as the code drops it. Platform differences are not modelled.
- `EnvFile.LoadEnvFile` returns the new environment as a map rather than mutating the process environment.
- Concurrency is not modelled: each checkout is one atomic step on the database. So are Postgres row locking and simultaneous requests.
- Timestamps filled by the database (created_at, updated_at, deleted_at) are not modelled.
- Column type mismatches are not modelled. For example, `Product.CategoryId` is an integer in Go while the column holds UUIDs. Each scan error is a `Fault`.
- A nil `Description` pointer would make the handlers panic; descriptions are always present in the model.
- Integers are unbounded: Go's 64-bit `int` overflow in prices, stock and the summed amount is not modelled.
- The float `discount` of a transaction is always zero and is kept as an integer. A voucher's `discount_percentage` is carried as a real and never computed with.
- `TransactionHandler.Checkout`: the bulk copy and the batch are driven by a `CheckoutFault`. Failures the database could raise inside one statement (a stock CHECK constraint, say) are covered only as "that step fails".
- `VoucherHandler.GetAllVoucher`: `rows.Err()` is never consulted by the code, so a stream that breaks early is modelled as a cursor that delivers fewer rows, and the call is a success.
- Decrements: its own contract states the stock each product ends with; the rows it returns are stated by `DecrementsRows`, against `ExpectedRows`.
- RowsOfUser: its own contract states which rows are seen; how many times each is seen is stated by `RowsOfUserCounted`.
- Shortfalls: its own contract states emptiness and membership; the order of the details is stated by `ShortfallsAppend` and `ShortfallsOne`.
- `OrderHandler.GetMyOrders`: an empty result is a success with an empty list. The "sucess" branch for `pgx.ErrNoRows` is not reachable with `CollectRows`.
