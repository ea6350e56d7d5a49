# A verified model of the DATN exchange companion service

The DATN repository is a decentralised-exchange companion. A Node backend mirrors a limit-order
contract, keeps order and liquidity records in a document store, authenticates users and their
wallets, and pushes contract events to WebSocket clients. A React front end holds the wallet
session, the swap forms, the header and the staking picker. This project models the parts of that
code that make decisions, and proves what they promise.

The model is split into one Dafny module per component:

- `OrderMirror` (backend/src/index.js). This is the in-memory mirror: the `pendingOrders` and
  `orderHistory` lists, the refresh scan, the execution sweep and its receipt, the contract-event
  handlers, the protocol refresh, the stats push, the gas-price offer and the order routes. It is a
  class whose methods change the two lists and record what they push.
- `PriceService` (backend/src/services/priceOffChain.js). This covers the pending-order scan, the
  sweep task, the sequential protocol-update loop and the schedule constants.
- `OrderRecords` (backend/controller/orderController.js, backend/models/Order.js). This covers the
  order documents and the status enum with its predicates. It also covers the `findByUser` query, the
  newest-first order, and the pagination and statistics. The store is a class holding a map from
  orderId to record. Its methods are create, cancel, update-status, find and count.
- `Liquidity` (backend/controller/liquidityController.js). This covers position and pool records,
  kept in maps keyed by token id and by (token0, token1, fee). It has the exact BigInt decrement on
  removal, the find-or-create of a pool with its fixed +1000 step, and the required-field checks.
- `Validation`, `ErrorHandler`, `AuthMiddleware` and `AuthRegistry`. These are the request
  middleware and the user and wallet registry: ordered checks, status codes, uniqueness of emails
  and wallet addresses, and the first-wallet-is-primary rule.
- `Subscribers` (backend/src/services/wssv.js). This covers the client set, the OPEN-only
  broadcast, the event tags and the market-price tick.
- `WalletContext`, `WalletButton`, `Header`, `SwapToken`, `SwapTokenHomepage` and `Staking`. These
  are the front-end state holders, each a class whose handlers are proved against a transition
  function. They also hold the pure helpers: chain-id rendering, the network table, address
  shortening, the amount sanitiser, the token filter and the lock table.
- `Wrappers`, `Text` and `Js` hold the shared vocabulary. This means an `Option` type and
  JavaScript values with their truthiness. It also means the string operations the code relies on:
  `toLowerCase`, `substring`, `includes`, `toString(base)`, `parseInt` and `BigInt`. The
  number conversions come with round-trip lemmas.

Chain calls, database I/O, the clock, library parsers and the wallet provider are never performed.
Their results arrive as parameters: oracles such as `read: nat -> Option<...>`, or outcome
datatypes such as mined, reverted or refused. Each handler is modelled as one atomic step.

Three behaviours one might expect of an order mirror are absent from the code: a status that only
moves forward, a rule for choosing between conflicting terminal reports, and failures of one order
that do not stop the others. The model follows the code:

- `updateOrderStatus` overwrites any status (`OrderRecords.OrderStore.UpdateOrderStatus`).
- The protocol refresh stops at the first failure (`OrderMirror.Monitor.CheckAndUpdateProtocols`,
  `PriceService.UpdateLendingProtocols`).
- One execution can enter `orderHistory` twice, once from the sweep receipt and once from the
  `OrderExecuted` listener (`OrderMirror.Monitor.OnOrderExecuted`).

## Model

| member | source | states |
|---|---|---|
| Text.ToLower | backend/controller/orderController.js:53-55 | `toLowerCase` on ASCII text: each character is lowered in place, letters A-Z to a-z and everything else kept (other scripts are listed under Left out) |
| Text.ToUpper | backend/controller/orderController.js:243 | `toUpperCase` on ASCII text: each character is raised in place, letters a-z to A-Z and everything else kept (other scripts are listed under Left out) |
| Text.ToLowerIdempotent | frontend/src/components/SwapToken.tsx:30-31 | lowering twice is lowering once |
| Text.ContainsEmpty | frontend/src/components/SwapToken.tsx:30-31 | every string `includes` the empty string |
| Text.TrimStart | backend/models/position.js:8 | cutting leading white space leaves a suffix that is empty or starts with a non-space, and everything cut off is white space |
| Text.TrimEnd | backend/models/position.js:8 | cutting trailing white space leaves a prefix that is empty or ends with a non-space, and everything cut off is white space |
| Text.Trim | backend/models/position.js:8 | the `trim` setter's result neither starts nor ends with white space and is never longer than the input |
| Text.TrimStartUnpadded | backend/models/position.js:8 | text not starting with white space is its own `trimStart` |
| Text.TrimUnpadded | backend/models/position.js:8 | text without white space at either end is its own trim, so trimming twice is trimming once |
| Text.TrimLower | backend/models/tokenPrice.js:5-11 | trimming and ASCII lowering commute, so the order of a path's `trim` and `lowercase` setters does not matter |
| Text.Clamp | frontend/src/components/Header.tsx:76-78 | a `substring` index is clamped to [0, length]: a negative index counts as 0, one beyond the end as the length, and an index in range is kept |
| Text.Substring | frontend/src/components/Header.tsx:76-78 | `substring` never grows the string; in-range ends give the slice between them, in either order; a negative end counts as 0 and one beyond the end as the length, so ends both at or below 0 (or both at or beyond the length) give "" and ends spanning the string give all of it |
| Text.DigitValue | frontend/src/contexts/WalletContext.tsx:123 | a recognised digit is below the base and prints back as the same character |
| Text.NumeralRoundTrip | frontend/src/contexts/WalletContext.tsx:123 | `Numeral` is `n.toString(base)`: reading back `n.toString(base)` gives n |
| Text.NumeralShape | frontend/src/contexts/WalletContext.tsx:123 | `n.toString(base)` is non-empty, made of digits of the base, and starts with '0' only for zero |
| Text.SignedDecimalRoundTrip | backend/controller/liquidityController.js:210-212 | `BigInt` reads back the decimal string a BigInt prints, negative values included |
| Text.ParseBigInt | backend/controller/liquidityController.js:211 | `BigInt(s)`: blank text reads as 0, and otherwise the trimmed text is read as a BigInt literal (decimal with an optional sign, or "0x", "0o", "0b" digits) |
| Text.BigIntLiteral | backend/controller/liquidityController.js:211 | a BigInt literal that does not start with '-' never reads as a negative number |
| Text.ParseBigIntUnpadded | backend/controller/liquidityController.js:211 | text without surrounding white space is read as a literal directly |
| Text.ParseBigIntOfDigits | backend/controller/liquidityController.js:211 | decimal digits without a radix prefix read as the number they spell |
| Text.ParseBigIntOfNegatedDigits | backend/controller/liquidityController.js:211 | '-' followed by decimal digits reads as the negated number |
| Text.DigitValueOfDigitChar | frontend/src/contexts/WalletContext.tsx:123 | every digit of the base prints as a character that reads back as that digit |
| Js.LeadingDigitsIn | backend/middleware/validation.js:59 | the longest prefix made of digits of the base, in either case: it is a prefix, all of it digits, and the next character, if any, is not a digit |
| Js.ParseIntOfDecimal | frontend/src/components/SwapToken.tsx:340 | `parseInt` reads back the decimal rendering of any integer |
| Js.Truthy | backend/middleware/validation.js:11 | `!v` holds exactly for undefined, null, false, 0 and "" (the falsy values the handlers test) |
| Js.ToText | backend/controller/liquidityController.js:153-166 | `String(v)` as a string path stores it: a string is kept, a number prints a decimal that `BigInt` reads back as the number, and any other value prints a non-empty word |
| Js.ToBigInt | backend/controller/liquidityController.js:211 | `BigInt(v)`: undefined and null throw, booleans give 0 and 1, a number is kept, and text is read as `Text.ParseBigInt` reads it |
| Js.NumberOfText | backend/models/Order.js:28-32 | `Number(s)`: blank text is 0, otherwise the trimmed text is read as a decimal literal with an optional fraction and exponent |
| Js.ToNumber | backend/models/position.js:11-39 | the schema's Number cast: undefined, null and "" are missing, booleans give 0 and 1, a number is kept, other text is read by `NumberOfText` (a failed read is a cast error) |
| Js.FractionAmountCast | backend/models/Order.js:28-32 | the amount "100.5" is cast to 100.5 and not refused |
| Js.ExponentAmountCast | backend/models/Order.js:28-32 | the amount " 2e3 " is cast to 2000: surrounding white space is ignored and the exponent scales |
| Js.NumberParseInt | backend/controller/liquidityController.js:31 | `parseInt` of a stored number truncates it toward zero |
| Js.NumberParseIntOfInteger | backend/controller/liquidityController.js:31 | a whole number is its own `parseInt` |
| Js.IntPrefix | backend/middleware/validation.js:59 | on text without leading white space, `parseInt` is NaN iff no digits follow the optional sign and "0x"; after a '-' the value is at most 0, otherwise at least 0 |
| Js.IntRadix | backend/middleware/validation.js:59 | `parseInt` with no radix reads base 10, or base 16 after "0x" |
| Js.ParseIntText | backend/middleware/validation.js:59 | on text not starting with white space, `parseInt` reads the leading signed digit run (`IntPrefix`) |
| Js.IntPrefixValue | backend/middleware/validation.js:59 | when the digit run reads as m in its base, the result is m with the sign applied |
| Js.ParseIntOfDigitRun | backend/middleware/validation.js:59 | decimal digits followed by a non-digit (or nothing) read as the digits' value: the rest is ignored |
| Js.DecimalNumeralRead | backend/middleware/validation.js:59 | the decimal rendering of a natural number reads back as that number |
| Js.NegatedNumeralRead | backend/middleware/validation.js:59 | '-' before such a rendering reads back as its negation |
| Js.WordHasNoDigits | backend/middleware/validation.js:59 | "undefined", "null", "true" and "false" read as NaN |
| Js.ParseInt | backend/middleware/validation.js:59-66 | `parseInt(v)`: a number reads as itself, text as `ParseIntText` reads it, and undefined, null and booleans as NaN |
| Js.ParseIntSkipsSpace | backend/middleware/validation.js:66 | leading white space does not change what `parseInt` reads |
| Js.TrimStartSkipsSpace | backend/middleware/validation.js:66 | leading white space does not change what `trimStart` leaves |
| Js.ParseIntAfterSign | backend/middleware/validation.js:66 | a sign before unsigned text keeps NaN as NaN; '+' keeps the number and '-' negates it |
| Js.ParseIntSignedDecimal | backend/middleware/validation.js:66 | white space, a sign and decimal digits read as the signed number |
| Js.ParseIntReadsHex | backend/controller/liquidityController.js:31 | "0x1F" reads as 31 |
| Js.ParseIntStopsAtNonDigit | backend/controller/liquidityController.js:31 | "12px" reads as 12: reading stops at the first non-digit |
| Js.ParseIntWithoutDigits | backend/controller/liquidityController.js:31 | "px" reads as NaN |
| AuthMiddleware.Split | backend/src/middlewares/auth.middleware.js:13 | `split(' ')` gives at least one piece and no piece holds the separator |
| AuthMiddleware.SplitJoin | backend/src/middlewares/auth.middleware.js:13 | joining the pieces with the separator gives the header back, so the split loses nothing |
| AuthMiddleware.SplitAfterPrefix | backend/src/middlewares/auth.middleware.js:13 | a header made of a separator-free field, the separator and a rest splits into that field followed by the rest's pieces |
| AuthMiddleware.SplitNoSeparator | backend/src/middlewares/auth.middleware.js:13 | a string without the separator is one piece |
| AuthMiddleware.TokenOf | backend/src/middlewares/auth.middleware.js:13 | the token (second field, or nothing) never holds a space |
| AuthMiddleware.TokenOfBearer | backend/src/middlewares/auth.middleware.js:9-16 | after "Bearer " the token is the whole rest when it has no space, and empty when the rest is empty or starts with a space |
| AuthMiddleware.VerifyToken | backend/src/middlewares/auth.middleware.js:5-36 | every refusal is 401; a missing or non-"Bearer " header gets the no-token message; the user is attached iff prefix, non-empty token, successful verification and a found user all hold; "Token expired." iff the thrown error is named TokenExpiredError |
| AuthMiddleware.EmptyTokenRefused | backend/src/middlewares/auth.middleware.js:13-16 | "Bearer " followed by nothing or by a second space is refused with the no-token message whatever the verifier would say |
| AuthMiddleware.UserLookup | backend/src/middlewares/auth.middleware.js:22-25 | `findByPk` finds a user iff one with that id is registered, and the user found has that id |
| AuthMiddleware.FindOwned | backend/src/middlewares/auth.middleware.js:47-52 | the wallet found belongs to the user and has the address; none is found iff no stored wallet matches both |
| AuthMiddleware.VerifyWalletOwnership | backend/src/middlewares/auth.middleware.js:39-65 | 400 iff the address is missing, 500 iff the lookup throws, 403 iff no wallet of the user has the address; otherwise the matching wallet is attached |
| AuthMiddleware.ConnectedWalletOwned | backend/src/middlewares/auth.middleware.js:47-56 | a wallet just connected by the registry passes the ownership check for its own user and gets 403 for every other user |
| AuthRegistry.FindByEmail | backend/src/controllers/auth.controller.js:17 | the index found holds a user with that email; none is found iff no user has it |
| AuthRegistry.FindById | backend/src/controllers/auth.controller.js:181 | the index found holds a user with that id; none is found iff no user has it |
| AuthRegistry.WalletsOf | backend/src/controllers/auth.controller.js:81-84 | the wallets listed are exactly the stored wallets of that user; the list is empty iff the user has none |
| AuthRegistry.AppendKeepsDistinct | backend/src/controllers/auth.controller.js:114-133 | adding a wallet with an unused address and id keeps addresses and ids unique |
| AuthRegistry.AppendKeepsPrimaryIsFirst | backend/src/controllers/auth.controller.js:123-133 | adding a wallet that is primary iff its user had none keeps "a wallet is primary iff it is its user's first" |
| AuthRegistry.PrimaryUnique | backend/src/controllers/auth.controller.js:132 | under the first-is-primary rule no later wallet of the same user is primary |
| AuthRegistry.FirstWalletIsPrimary | backend/src/controllers/auth.controller.js:132 | a user with any wallet has a primary one |
| AuthRegistry.FirstOfUser | backend/src/controllers/auth.controller.js:123-125 | the index found is the user's first wallet: it belongs to the user and no earlier wallet does |
| AuthRegistry.PrimaryAt | backend/src/controllers/auth.controller.js:132 | a wallet with no earlier wallet of its user is primary |
| AuthRegistry.Registry.constructor | backend/src/controllers/auth.controller.js:1-2 | the registry starts empty and valid |
| AuthRegistry.Registry.Register | backend/src/controllers/auth.controller.js:6-48 | validation errors give 400 with the list; an email already stored gives 400; otherwise exactly one user is appended; wallets never change and uniqueness is kept |
| AuthRegistry.Registry.Login | backend/src/controllers/auth.controller.js:51-99 | an unknown email and a wrong password both get 401 "Invalid email or password"; success answers with the user and exactly that user's wallets |
| AuthRegistry.Registry.ConnectWallet | backend/src/controllers/auth.controller.js:102-148 | an address stored under any user gives 400 and nothing changes; otherwise one wallet is appended, primary iff the user had none; address uniqueness and the first-is-primary rule are kept |
| AuthRegistry.Registry.UpdateUser | backend/src/controllers/auth.controller.js:175-211 | a new email is stored only if given, different and not used by another user (otherwise 400 and no change); an unchanged email skips the lookup; the password is replaced only if given; only that user's row changes |
| AuthRegistry.RegisteredIsFound | backend/src/controllers/auth.controller.js:17-26 | after a registration the email finds exactly the new user |
| ErrorHandler.Handle | backend/middleware/errorHandler.js:1-42 | checks apply in the fixed order validation error, duplicate key 11000, contract error (CALL_EXCEPTION or any reason), default; one message per `err.errors` entry; "Duplicate" names the first key; the contract text prefers the reason; the default text is the message only in development; reading an absent `errors`/`keyValue` object throws |
| ErrorHandler.HandleStatus | backend/middleware/errorHandler.js:7-35 | every answer has success false; it is 500 iff the error is none of the three recognised kinds, and 400 otherwise |
| ErrorHandler.NoLeakOutsideDevelopment | backend/middleware/errorHandler.js:37-40 | outside development the default answer carries "Something went wrong" whatever the error says |
| ErrorHandler.ValidationFirst | backend/middleware/errorHandler.js:5-12 | a validation error's answer depends only on its field messages, whatever code or reason it also carries |
| ErrorHandler.DuplicateBeforeContract | backend/middleware/errorHandler.js:15-31 | a duplicate-key error carrying a reason is not answered as a contract error |
| Header.AtMostOneActive | frontend/src/components/Header.tsx:12-14 | `IsActive` is the highlight test; on any pathname at most one of the five navigation links (lines 125-236) is highlighted |
| Header.FormatAddress | frontend/src/components/Header.tsx:74-79 | "" stays ""; a non-empty address gives its first min(6, n) characters, "..." and the characters from max(0, n-4) on; an address of at least 10 characters gives 13 characters |
| Header.FormatKeepsEnds | frontend/src/components/Header.tsx:76-78 | a full-length address keeps its first six and last four characters around the ellipsis |
| Header.Disconnected | frontend/src/components/Header.tsx:46-50 | `disconnectWallet` leaves the header disconnected, with no address and the dropdown closed; a registered listener stays registered |
| Header.AccountsChanged | frontend/src/components/Header.tsx:28-35 | without a registered listener an account switch changes nothing; with one, an empty account list disconnects and any other list changes only the address, to the first account |
| Header.Connected | frontend/src/components/Header.tsx:17-43 | no wallet or a failed request changes nothing; granted accounts connect the header, show the first one (an empty grant showing no address) and register the account listener |
| Header.DropdownToggled | frontend/src/components/Header.tsx:292 | the address button flips the dropdown and nothing else |
| Header.ClickedOutside | frontend/src/components/Header.tsx:83-87 | a click outside leaves the dropdown closed and nothing else changed |
| Header.ConnectThenSwitch | frontend/src/components/Header.tsx:24-35 | an account switch after a button connect keeps the header connected and shows the new account; a disconnect after a connect gives the initial view with the listener still registered; toggling the dropdown twice changes nothing |
| Header.Checked | frontend/src/components/Header.tsx:53-71 | on mount a non-empty account list connects and shows the first account; an absent wallet, a failing call or an empty list change nothing |
| Header.MountCheckDoesNotListen | frontend/src/components/Header.tsx:53-71 | a header connected only by the mount check registers no listener: a later account switch leaves it connected and showing the account it found |
| Header.DisconnectSpec | frontend/src/components/Header.tsx:28-50 | disconnecting is idempotent and shows no address; an account switch after a disconnect never reconnects, and when the listener from an earlier connect lingers it shows the new address |
| Header.HeaderState.constructor | frontend/src/components/Header.tsx:7-9 | the header starts disconnected, with no address and the dropdown closed |
| Header.HeaderState.DisconnectWallet | frontend/src/components/Header.tsx:46-50 | the new state is `Disconnected` of the old |
| Header.HeaderState.OnAccountsChanged | frontend/src/components/Header.tsx:28-35 | the new state is `AccountsChanged` of the old, so the switch is ignored unless `connectWallet` registered the listener |
| Header.HeaderState.ConnectWallet | frontend/src/components/Header.tsx:17-26 | the new state is `Connected` of the old |
| Header.HeaderState.ToggleDropdown | frontend/src/components/Header.tsx:292 | the new state is `DropdownToggled` of the old |
| Header.HeaderState.HandleClickOutside | frontend/src/components/Header.tsx:83-87 | the new state is `ClickedOutside` of the old |
| Header.HeaderState.CheckIfWalletIsConnected | frontend/src/components/Header.tsx:54-68 | the new state is `Checked` of the old |
| Liquidity.PoolKeyOf | backend/controller/liquidityController.js:28-32 | the pool lookup throws (no key) iff a token is not a string or the fee parses to NaN; tokens are stored normalized (see `PoolKeysAgree`) |
| Liquidity.Normalized | backend/models/pool.js:5-14 | what a `trim` and `lowercase` path stores has no white space at either end and no upper-case ASCII letter, and is never longer than the input (also backend/models/position.js:5-26) |
| Liquidity.NormalizedIdempotent | backend/models/pool.js:5-14 | normalizing stored text again changes nothing |
| Liquidity.NormalizedIgnoresCase | backend/models/tokenPrice.js:5-11 | lowering text first does not change what a trimmed, lower-cased path compares with, so a checksummed address selects the same document as its lower-case form |
| Liquidity.PriceIgnoresCase | backend/controller/liquidityController.js:42-43 | `PriceOf`, the price lookup, gives the same price to texts that differ only in ASCII case or that normalize alike, and finds a price stored under the normalized address |
| Liquidity.PoolKeysAgree | backend/controller/liquidityController.js:28-32 | two lookups select the same pool iff their tokens agree after trimming and lowering and their parsed fees are equal |
| Liquidity.PoolKeyOfText | backend/controller/liquidityController.js:333-337 | string tokens and a numeric fee always give a key, made of the normalized tokens and the fee |
| Liquidity.CalculateLiquidity | backend/controller/liquidityController.js:64-113 | 400 iff one of the seven fields is falsy (so a fee or tick of 0 is refused); otherwise 200 echoing the desired amounts with a liquidity that reads as 1000·10^18 |
| Liquidity.Subtract | backend/controller/liquidityController.js:210-212 | the subtraction succeeds iff both sides convert with `BigInt`, and the stored text reads as the exact integer difference |
| Liquidity.RemovalCanGoNegative | backend/controller/liquidityController.js:210-212 | removing 7 from a stored "5" is accepted and stores -2: there is no lower bound |
| Liquidity.DifferenceReadsBack | backend/controller/liquidityController.js:210-212 | the decimal text of the difference reads back, by `BigInt`, as stored minus removed |
| Liquidity.SamePoolOnRemoval | backend/controller/liquidityController.js:237-241 | for a numeric fee, removing a stored position updates the same pool that adding it updated (line 171) |
| Liquidity.LiquidityBook.constructor | backend/controller/liquidityController.js:1-2 | both collections start empty |
| Liquidity.LiquidityBook.GetPoolInfo | backend/controller/liquidityController.js:16-61 | 400 iff token0, token1 or fee is falsy; 404 iff no pool has the normalized tokens and parsed fee; otherwise the pool, with each token's price as `PriceOf` finds it under that pool's normalized token (the query runs the path's trim and lowercase setters, backend/models/tokenPrice.js:5-11), 0 when no price is recorded |
| Liquidity.StartingLiquidity | backend/controller/liquidityController.js:333-354 | the liquidity the update starts from: a found pool's stored text read by `BigInt`; for a created pool 0, unless a token is empty and the save's required check fails |
| Liquidity.PoolStartsEmpty | backend/controller/liquidityController.js:346 | the "0" a created pool starts with reads as 0 |
| Liquidity.BumpedPool | backend/controller/liquidityController.js:354-356 | the updated pool has tick 0, price "0", and a liquidity that reads as the starting liquidity plus 1000 |
| Liquidity.PoolBumped | backend/controller/liquidityController.js:329-362 | no key or a failed start leaves the pools as they were; otherwise the selected pool, found or created, is replaced by `BumpedPool` of its starting liquidity |
| Liquidity.PoolBumpedEffect | backend/controller/liquidityController.js:339-358 | after a successful update the pools are the old ones plus the selected key; every other pool is untouched |
| Liquidity.PoolBumpedLiquidity | backend/controller/liquidityController.js:354 | the selected pool reads as exactly its old liquidity plus 1000, or 1000 for a created pool |
| Liquidity.LiquidityBook.UpdatePool | backend/controller/liquidityController.js:333-358 | for a key that was built, the pools become `PoolBumped` of the old pools; positions never change |
| Liquidity.LiquidityBook.UpdatePoolInfo | backend/controller/liquidityController.js:329-362 | positions never change; the pools become `PoolBumped` of the old pools for the lowercased tokens and `parseInt(fee)`, so a thrown lookup or a failed save (caught at line 359) leaves them unchanged |
| Liquidity.LiquidityBook.SaveAddLiquidity | backend/controller/liquidityController.js:116-185 | 400 iff one of the ten required fields is falsy; every error stores nothing; success answers 201 with the position `NewPosition` builds, stored under its previously unused tokenId with nothing else changed, and bumps the pool of the request's tokens and `parseInt(fee)` by `PoolBumped`; the `status` argument is stored nowhere, since the position schema has no such path |
| Liquidity.LiquidityBook.Insert | backend/controller/liquidityController.js:167-171 | a position that did not cast, or whose tokenId is taken, is a 500 that stores nothing; otherwise it is stored under its tokenId with nothing else changed, and the pool is bumped by `PoolBumped` |
| Liquidity.LiquidityBook.SaveRemoveLiquidity | backend/controller/liquidityController.js:188-255 | 400 iff tokenId or liquidity is falsy; 404 iff the tokenId casts and no position has it; every error stores nothing; success replaces only that position, by `Removed`, and bumps the pool of the stored tokens and `parseInt` of the stored fee by `PoolBumped`, the same +1000 step as an addition |
| Liquidity.LiquidityBook.Replace | backend/controller/liquidityController.js:234-241 | a failed removal is a 500 that stores nothing; otherwise only that position is replaced and the pool of its stored tokens and fee is bumped by `PoolBumped` |
| Liquidity.NewPosition | backend/controller/liquidityController.js:153-166 | the document exists iff tokenId, fee and both ticks cast to numbers and the addresses are non-empty after trimming; addresses are stored trimmed and lowercased (and are then their own normal form), numbers as the Number cast reads them, amounts and liquidity as text, txHash trimmed when given; no status field (also backend/models/position.js:5-70) |
| Liquidity.Removed | backend/controller/liquidityController.js:209-232 | succeeds iff every subtraction it must do succeeds; the liquidity becomes the exact difference; each amount moves by the given amount only when given and is kept otherwise; txHash is replaced (trimmed) only when given; identity, tokens, fee and ticks are kept; a status argument is not stored |
| OrderMirror.GasPriceOffer | backend/src/index.js:603 | the sweep offers the network gas price plus exactly 10·10^9 wei, in integer arithmetic (lines 661-664) |
| OrderMirror.Decode | backend/src/index.js:636 | indexing a three-name array literal gives a name iff the code is in range, and that entry |
| OrderMirror.DecodeTables | backend/src/index.js:777 | status and protocol codes have a name iff they are 0, 1 or 2, and distinct codes have distinct names (also lines 636, 786, 955-956) |
| OrderMirror.Entry | backend/src/index.js:622-637 | the pending entry built at index i has orderId i, the read user and tokenOut, createdAt in milliseconds and a protocol name iff the code is below 3 |
| OrderMirror.Ids | backend/src/index.js:711-712 | the order ids of a pending list, position by position |
| OrderMirror.ScanAgreesWithPendingIndices | backend/src/index.js:615-641 | the mirror's scan and the price service's `getPendingOrders` (backend/src/services/priceOffChain.js:601-610) fail together and select the same ids |
| OrderMirror.ScanEntries | backend/src/index.js:617-640 | each entry of a successful scan is built from the read at its own index |
| OrderMirror.ScanSpec | backend/src/index.js:615-643 | `Scan` is the refresh scan: the scan fails iff some read below the count fails; otherwise its ids are strictly increasing and are exactly the indices below the count whose status is 0, each entry built from its own read |
| OrderMirror.ScanNoneAfter | backend/src/index.js:617-618 | once a read fails the whole scan fails |
| OrderMirror.ExecutedEventsAppend | backend/src/index.js:680-682 | the receipt filter distributes over concatenation, so it keeps receipt order |
| OrderMirror.ExecutedEventsCount | backend/src/index.js:680-682 | the filter keeps each OrderExecuted event as often as it occurs and drops every other kind |
| OrderMirror.ReceiptEntries | backend/src/index.js:684-694 | one history entry per executed event, in order |
| OrderMirror.ExecutedPushes | backend/src/index.js:696 | one "orderExecuted" push per recorded entry, in order |
| OrderMirror.ReceiptEntriesFaithful | backend/src/index.js:680-697 | each entry a receipt contributes comes from an OrderExecuted event of that receipt, names its order id as a decimal string that reads back, and carries the receipt's hash |
| OrderMirror.Monitor.constructor | backend/src/index.js:606-607 | both lists start empty and nothing has been pushed |
| OrderMirror.Monitor.FetchPendingOrders | backend/src/index.js:610-654 | a successful scan replaces `pendingOrders`, pushes it and returns it; a failed read leaves the list as it was, pushes nothing and returns []; the history is untouched |
| OrderMirror.Monitor.CheckAndExecuteOrders | backend/src/index.js:657-704 | a missing gas price or a transaction that is not mined changes nothing and returns false; otherwise the list is refreshed and the history grows by exactly the receipt's OrderExecuted entries, in receipt order, each pushed |
| OrderMirror.Monitor.OnOrderCreated | backend/src/index.js:890-908 | refreshes, then pushes the new order; the history is untouched |
| OrderMirror.Monitor.OnOrderExecuted | backend/src/index.js:910-927 | appends exactly one entry without a hash, even when the sweep already recorded that execution, pushes it, then refreshes |
| OrderMirror.Monitor.OnOrderCancelled | backend/src/index.js:929-944 | pushes the cancellation and refreshes; the history is untouched |
| OrderMirror.Monitor.OnProtocolChanged | backend/src/index.js:946-966 | pushes the change with both codes decoded and refreshes; the history is untouched |
| OrderMirror.Monitor.CheckAndUpdateProtocols | backend/src/index.js:707-729 | updates are sent in list order; the first refused send aborts with false, later orders are not attempted and nothing is refreshed; when all are accepted the list is refreshed and the result is true |
| OrderMirror.Monitor.EmitStats | backend/src/index.js:969-977 | the stats push carries exactly the two list lengths; no list changes |
| OrderMirror.Monitor.Snapshot | backend/src/index.js:862-868 | a new client receives the current pending list, then the current history |
| OrderMirror.Monitor.PostOrder | backend/src/index.js:796-837 | 400 iff tokenOut, amountIn or targetPrice is falsy; success iff the transaction is mined with an OrderCreated event, answering that event's id; a failure changes nothing |
| OrderMirror.Monitor.PostCancel | backend/src/index.js:840-859 | success iff the cancellation is mined, then the list is refreshed; otherwise 500 and nothing changes |
| OrderMirror.ExecutedPendingFilter | backend/src/index.js:680-682 | the loop computes exactly the OrderExecuted filter of the receipt |
| OrderMirror.FirstCreated | backend/src/index.js:821-824 | `find` gives the id of the first OrderCreated event, and nothing iff there is none |
| OrderMirror.ViewOrder | backend/src/index.js:761-793 | a failed read is a 500; otherwise the view carries the requested id, a status name iff the code is below 3 ("PENDING" iff 0) and a protocol name iff its code is below 3 |
| OrderRecords.ExactlyOneStatus | backend/models/Order.js:107-117 | for each enum status exactly one of isPending/isExecuted/isCancelled holds (enum at lines 38-43); for any other string none does |
| OrderRecords.TotalAmount | backend/models/Order.js:102-104 | `totalAmount` is the deposit plus the accrued interest, and NaN while no deposit is recorded |
| OrderRecords.NewRecord | backend/controller/orderController.js:51-62 | a created record starts PENDING, protocol NONE and interest 0 (defaults at backend/models/Order.js:41, 57-65), with lowercased addresses and both timestamps at the save time |
| OrderRecords.NewRecordValid | backend/models/Order.js:28-37 | a new record passes the schema iff its amounts are at least 0 and its required strings are present |
| OrderRecords.UserQuery | backend/models/Order.js:120-130 | the query always holds the lowercased address, a status key iff the option is truthy (uppercased), a tokenOut key iff that option is truthy (lowercased); a truthy non-string option throws |
| OrderRecords.StatsQuery | backend/models/Order.js:138-141 | the stats query filters on the lowercased address iff one is given, and on nothing else |
| OrderRecords.InsertNewestFirstSpec | backend/models/Order.js:131 | inserting adds exactly that record and keeps a newest-first list newest first |
| OrderRecords.InsertAddsOne | backend/models/Order.js:131 | insertion adds exactly one copy of the record |
| OrderRecords.InsertKeepsOrder | backend/models/Order.js:131 | insertion keeps a newest-first list newest first |
| OrderRecords.SortNewestFirstSpec | backend/models/Order.js:131 | `SortNewestFirst`, the model of `sort({ createdAt: -1 })`, returns a permutation of its input, newest first (also lines 134-136) |
| OrderRecords.Page | backend/controller/orderController.js:144-148 | `skip` then `limit` gives at most limit records, a contiguous slice starting at skip, and nothing past the end |
| OrderRecords.PaginationSpec | backend/controller/orderController.js:156-160 | `PaginationOf` is the pagination block: for limit at least 1, totalPages is ceil(total/limit): the least page count that holds every match; hasNext iff matches remain past this page; hasPrev iff page > 1 |
| OrderRecords.PageSpec | backend/controller/orderController.js:146-147 | for page and limit at least 1, the skip is (page-1)·limit, at most limit records come back, and they are the matches from that position on |
| OrderRecords.Tally | backend/models/Order.js:143-162 | totalOrders counts every match, the three status counts never exceed it, and with no match every figure is zero, as in the default answer at backend/controller/orderController.js:291-297 |
| OrderRecords.TallyComplete | backend/models/Order.js:151-159 | when every status is in the enum, pending + executed + cancelled = totalOrders |
| OrderRecords.TallyPendingCount | backend/controller/orderController.js:275-277 | the pending count is the number of PENDING matches |
| OrderRecords.FilterPending | backend/models/Order.js:134-136 | the filter keeps exactly the PENDING records |
| OrderRecords.OrderStore.constructor | backend/models/Order.js:176 | the store starts empty |
| OrderRecords.OrderStore.CreateOrder | backend/controller/orderController.js:19-81 | 400 iff one of the four fields is falsy; a unit-conversion error (line 38) is then a 500 with that error; a transaction is sent iff neither happened; every failure stores nothing, including a missing or empty token-in address, which the schema's `required` refuses after the transaction; success adds exactly one PENDING record with lowercased addresses and the amounts as the Number cast reads them (so "100.5" is kept), under the id of the receipt's OrderCreated event |
| OrderRecords.OrderStore.FindOwned | backend/controller/orderController.js:89-92 | the lookup finds a record iff one has this id and the lowercased owner |
| OrderRecords.OrderStore.CancelOrder | backend/controller/orderController.js:84-131 | 404 when no record matches id and lowercased owner; 400 with no transaction when the record is not PENDING; a failed transaction is 500; success sets only CANCELLED, cancelledAt and cancelTxHash (and updatedAt, from the save hook at backend/models/Order.js:166-169) on that record |
| OrderRecords.OrderStore.UpdateOrderStatus | backend/controller/orderController.js:240-258 | the uppercased status is stored whatever the current one is; executedAt and executeTxHash are set only when the raw argument is exactly "EXECUTED"; an unknown id changes nothing |
| OrderRecords.OrderStore.Collect | backend/controller/orderController.js:144 | the loop collects every stored record matching the query, each exactly once |
| OrderRecords.OrderStore.Find | backend/models/Order.js:120-136 | `findByUser`/`findPending` return every matching record exactly once, newest first |
| OrderRecords.OrderStore.GetUserOrders | backend/controller/orderController.js:134-171 | the reply is page `page` (default 1) of size `limit` (default 10) of the newest-first matches, with the pagination block over the total match count; a negative skip is a 500 |
| OrderRecords.OrderStore.CountMatches | backend/controller/orderController.js:150 | `countDocuments` equals the number of matching ids |
| OrderRecords.OrderStore.GetStats | backend/controller/orderController.js:261-306 | no stats iff the query cannot be built; otherwise the stats are the tally of a list holding exactly the records the stats query matches, with one entry per matching order id (also backend/models/Order.js:138-163) |
| OrderRecords.SortedSlice | backend/controller/orderController.js:145-147 | a page of a newest-first list is newest first |
| OrderRecords.DistinctIdsPermutation | backend/models/Order.js:131 | sorting a list of distinct ids keeps them distinct |
| OrderRecords.IdsOfDistinct | backend/controller/orderController.js:144-150 | a list holding each matching record once is as long as `countDocuments` |
| OrderRecords.IdsOfMembers | backend/controller/orderController.js:150 | the id set of a list holds exactly the ids of its records |
| OrderRecords.DistinctCard | backend/controller/orderController.js:150 | a list of distinct ids has as many ids as records |
| PriceService.ProtocolIntervalIsCheckMultiple | backend/src/services/priceOffChain.js:579 | the 6-hour refresh period (line 658) is exactly 720 sweep periods of 30 s |
| PriceService.PendingIndicesFails | backend/src/services/priceOffChain.js:599-616 | the scan fails exactly when some status read below orderCount fails |
| PriceService.PendingIndicesExact | backend/src/services/priceOffChain.js:604-610 | `PendingIndices` is the pending-order scan: a successful scan lists, strictly ascending, exactly the indices below orderCount whose status is 0 |
| PriceService.GetPendingOrders | backend/src/services/priceOffChain.js:599-617 | the loop returns the full pending list when every read succeeds and the empty list when any read fails, never a partial one |
| PriceService.PendingIndicesNoneAfter | backend/src/services/priceOffChain.js:613-616 | once a read fails, every longer scan fails too |
| PriceService.AttemptsSpec | backend/src/services/priceOffChain.js:636-643 | a loop that stops at the first failure tries a prefix of the ids in order; all attempts but the last succeed; the whole list is tried with no failure exactly when every step succeeds, and otherwise the last attempt is the first failure |
| PriceService.ExecuteSweep | backend/src/services/priceOffChain.js:620-629 | the sweep task completes exactly when the transaction is mined; a refused send or a failed receipt is caught and logged |
| PriceService.UpdateSteps | backend/src/services/priceOffChain.js:637-638 | one update is either refused at sending, or sent and then settled by its receipt, confirmed exactly when mined |
| PriceService.ExtendSettled | backend/src/services/priceOffChain.js:637-638 | appending one settled update to a settled trace keeps at most one update transaction in flight at every point |
| PriceService.UpdateLendingProtocols | backend/src/services/priceOffChain.js:632-644 | the refresh starts updates for exactly the pending ids up to and including the first failure, in order; it completes iff every update is mined; at every point at most one update is in flight and none is left in flight |
| PriceService.StartedIdsAppend | backend/src/services/priceOffChain.js:636 | the ids started by two traces run one after the other are those of the first followed by those of the second |
| PriceService.AttemptsAllSucceed | backend/src/services/priceOffChain.js:636-640 | when every update succeeds every id is attempted |
| PriceService.AttemptsUpToFailure | backend/src/services/priceOffChain.js:641-643 | when the first failure is at position i, the attempts are exactly the ids up to position i |
| Staking.LockWeeks | frontend/src/components/Staking.tsx:8-31 | a key that is not one of the five buttons gets the "26" default |
| Staking.WeekCount | frontend/src/components/Staking.tsx:12-30 | the entries for 1W, 1M, 6M, 1Y and 4Y read as 1, 4, 26, 52 and 208 weeks (button order at line 85) |
| Staking.WeeksIncreasing | frontend/src/components/Staking.tsx:12-30 | the lock grows strictly from each button to the next |
| Staking.FourYears | frontend/src/components/Staking.tsx:22-27 | four years lock for four times one year |
| Staking.UnknownIsSixMonths | frontend/src/components/Staking.tsx:28-29 | an unknown key falls back to the six-month entry |
| Staking.DurationSelected | frontend/src/components/Staking.tsx:8-31 | the selection becomes the argument, known or not, the weeks follow the table, and the amount is kept |
| Staking.ConsistentAlways | frontend/src/components/Staking.tsx:4-31 | the initial state and every selection keep the weeks consistent with the selected button, and reselecting is idempotent |
| Staking.StakingForm.constructor | frontend/src/components/Staking.tsx:4-6 | the form starts with amount "0.00", six months selected and 26 weeks |
| Staking.StakingForm.HandleDurationSelect | frontend/src/components/Staking.tsx:8-31 | the new state is the selection transition of the old one |
| Staking.StakingForm.SetCakeAmount | frontend/src/components/Staking.tsx:74 | the amount input stores the typed text and nothing else changes |
| Subscribers.EventMessage | backend/src/services/wssv.js:84-148 | each event is broadcast under its own tag with its arguments, its order id as a decimal string that reads back as the id, and for a protocol change both protocols decoded through the NONE/AAVE/COMPOUND table |
| Subscribers.TagsDistinct | backend/src/services/wssv.js:88-139 | two events share a tag iff they are of the same kind |
| Subscribers.DetailsMessage | backend/src/services/wssv.js:53-75 | the reply echoes the requested id and the order; its timestamp is the order's seconds in milliseconds, reading back exactly by division by 1000 (line 67); the status and protocol are named iff their codes are below 3, by the decode tables (lines 69, 72) |
| Subscribers.OpenClients | backend/src/services/wssv.js:152-158 | a broadcast reaches no more sockets than are connected |
| Subscribers.OpenClientsMembers | backend/src/services/wssv.js:154 | the recipients are exactly the connected sockets whose state is OPEN |
| Subscribers.OpenClientsDistinct | backend/src/services/wssv.js:13 | the recipients drawn from a set are distinct |
| Subscribers.Deliveries | backend/src/services/wssv.js:155 | one send of the same message to each recipient, in order |
| Subscribers.Remove | backend/src/services/wssv.js:22 | `delete` leaves exactly the other sockets, still distinct |
| Subscribers.Hub.constructor | backend/src/services/wssv.js:13 | the service starts with no client and nothing sent |
| Subscribers.Hub.Connect | backend/src/services/wssv.js:15-19 | a connection adds the socket once and sends it "initialData" with the pending orders, or nothing when the read fails (lines 38-50); as written the read always fails, see Left out |
| Subscribers.Hub.Close | backend/src/services/wssv.js:21-24 | a close removes the socket, keeps the others distinct and sends nothing |
| Subscribers.Hub.OnMessage | backend/src/services/wssv.js:27-34 | only a request typed "getOrderDetails" is answered, to the asking socket alone, and only when the read succeeds (lines 53-79); the client set is unchanged |
| Subscribers.Hub.Broadcast | backend/src/services/wssv.js:152-158 | the loop sends the message once to each OPEN client in set order and removes no one |
| Subscribers.Hub.OnContractEvent | backend/src/services/wssv.js:82-149 | every contract event is broadcast as its tagged message |
| Subscribers.Hub.PriceTick | backend/src/services/wssv.js:169-186 | one tick broadcasts one "marketPrices" message with the prices of the collected tokens |
| Subscribers.OpenClientsSnoc | backend/src/services/wssv.js:153 | the recipients of a longer client list are those of the prefix plus the new socket when it is OPEN |
| Subscribers.DeliveriesSnoc | backend/src/services/wssv.js:153-157 | deliveries to two recipient lists are the deliveries to each in turn |
| Subscribers.BroadcastReach | backend/src/services/wssv.js:152-158 | a broadcast reaches every OPEN client exactly once and no other socket |
| Subscribers.Prices | backend/src/services/wssv.js:170-180 | the map has a price exactly for the tokens whose lookup succeeds, with that price; a failing token does not stop the others |
| Subscribers.CollectPrices | backend/src/services/wssv.js:172-180 | the loop builds exactly that map |
| Subscribers.UniqueTokensSpec | backend/src/services/wssv.js:161-167 | `UniqueTokens` gives distinct tokens, exactly the tokenOut values read; a failing read anywhere fails the whole step |
| Subscribers.CollectTokens | backend/src/services/wssv.js:164-167 | the start-up loop returns exactly the unique tokens |
| Subscribers.UniqueTokensFailAfter | backend/src/services/wssv.js:165 | once a read fails, every longer collection fails too |
| SwapToken.Sanitize | frontend/src/components/SwapToken.tsx:289 | the sanitised text is no longer than the input and holds only digits and dots (also line 295) |
| SwapToken.SanitizeAppend | frontend/src/components/SwapToken.tsx:289 | sanitising works character by character: it distributes over concatenation, so kept characters stay in order |
| SwapToken.SanitizeKeeps | frontend/src/components/SwapToken.tsx:289 | text made only of digits and dots, any number of dots included, is kept as typed |
| SwapToken.SanitizeDrops | frontend/src/components/SwapToken.tsx:289 | text without a digit or dot sanitises to "" |
| SwapToken.SanitizeIdempotent | frontend/src/components/SwapToken.tsx:295 | sanitising twice is sanitising once |
| SwapToken.FilterTokens | frontend/src/components/SwapToken.tsx:28-32 | the search never lists more tokens than it is given |
| SwapToken.FilterMembers | frontend/src/components/SwapToken.tsx:28-32 | the search keeps exactly the tokens whose lower-cased name or symbol contains the lower-cased term |
| SwapToken.FilterAppend | frontend/src/components/SwapToken.tsx:28 | the search keeps the list's order: it distributes over concatenation |
| SwapToken.FilterEmptyTerm | frontend/src/components/SwapToken.tsx:28-32 | an empty search lists every token in order |
| SwapToken.FilterIgnoresCase | frontend/src/components/SwapToken.tsx:30-31 | the search ignores the case of the term |
| SwapToken.Loaded | frontend/src/components/SwapToken.tsx:161-167 | a list of at least two tokens makes its first two the pair and changes nothing else; a shorter list changes nothing |
| SwapToken.MockPairDistinct | frontend/src/components/SwapToken.tsx:128-167 | after loading the built-in list the two sides hold tokens with different addresses |
| SwapToken.SelectSpec | frontend/src/components/SwapToken.tsx:300-318 | `Selected` is the token pick: picking the token the other side holds swaps the pair; picking any other token changes only the chosen side; both amounts are cleared; nothing else changes |
| SwapToken.SelectKeepsDistinct | frontend/src/components/SwapToken.tsx:302-312 | a pair of distinct tokens stays distinct whatever is picked on either side |
| SwapToken.ToggleInvolution | frontend/src/components/SwapToken.tsx:320-330 | `Toggled` is the direction switch: toggling twice restores the form, and toggling keeps a pair distinct |
| SwapToken.AmountEdited | frontend/src/components/SwapToken.tsx:288-298 | the edited side takes the sanitised text and only the two amounts change; the other side follows lines 236-240 and 262-266 |
| SwapToken.EmptyAmountClears | frontend/src/components/SwapToken.tsx:237-240 | an edit that leaves no digit or dot clears both amounts (also lines 263-266) |
| SwapToken.SlippageSet | frontend/src/components/SwapToken.tsx:332-337 | the slippage changes only to a parsed value in [0, 100], and to exactly that value; NaN or a value out of range changes nothing |
| SwapToken.DeadlineSpec | frontend/src/components/SwapToken.tsx:339-344 | `DeadlineSet` is the deadline input: the deadline changes exactly when `parseInt` gives a positive integer, then to that integer, and nothing else changes |
| SwapToken.DeadlineOfDecimal | frontend/src/components/SwapToken.tsx:340-342 | typing the decimal form of a positive count sets exactly that count; zero or a negative count is ignored |
| SwapToken.SwapBlocker | frontend/src/components/SwapToken.tsx:347-354 | a swap is blocked with the connect message iff the wallet is not connected, with the fill-in message iff connected but a token or amount is missing, and goes ahead iff neither |
| SwapToken.Swapped | frontend/src/components/SwapToken.tsx:346-393 | a blocked swap only sets the message; a failing swap sets the failure message and keeps the amounts; a successful one clears the message and both amounts; nothing else changes |
| SwapToken.SwapForm.constructor | frontend/src/components/SwapToken.tsx:99-112 | the form starts empty, with no tokens, slippage 0.5 and a 20-minute deadline |
| SwapToken.SwapForm.LoadTokens | frontend/src/components/SwapToken.tsx:161-167 | the new state is the loading transition of the old one |
| SwapToken.SwapForm.HandleTokenSelect | frontend/src/components/SwapToken.tsx:300-318 | the new state is the selection transition of the old one |
| SwapToken.SwapForm.ToggleDirection | frontend/src/components/SwapToken.tsx:320-330 | the new state is the toggle of the old one |
| SwapToken.SwapForm.HandleAmountChange | frontend/src/components/SwapToken.tsx:288-298 | the new state is the amount-edit transition of the old one |
| SwapToken.SwapForm.HandleSlippageChange | frontend/src/components/SwapToken.tsx:332-337 | the new state is the slippage transition of the old one |
| SwapToken.SwapForm.HandleDeadlineChange | frontend/src/components/SwapToken.tsx:339-344 | the new state is the deadline transition of the old one |
| SwapToken.SwapForm.HandleSwap | frontend/src/components/SwapToken.tsx:346-393 | the callback is called iff it exists and nothing blocks the swap, with both amounts and both symbols as they were; the new state is the swap transition |
| SwapTokenHomepage.AmountEdited | frontend/src/components/SwapTokenHomepage.tsx:45-59 | editing either amount sets both fields to the sanitised text, one to one, and changes nothing else |
| SwapTokenHomepage.AmountEditStable | frontend/src/components/SwapTokenHomepage.tsx:45-59 | editing again with the sanitised text gives the same card |
| SwapTokenHomepage.Selected | frontend/src/components/SwapTokenHomepage.tsx:61-69 | the chosen side takes the token and closes its own dropdown; nothing else changes |
| SwapTokenHomepage.SameTokenAllowed | frontend/src/components/SwapTokenHomepage.tsx:61-69 | there is no same-token guard: both sides can end up holding one token |
| SwapTokenHomepage.ToggleSpec | frontend/src/components/SwapTokenHomepage.tsx:71-81 | `Toggled` is the direction switch: the amounts change sides; the buy side takes the old sell token; the sell side takes the buy token or keeps its own when there is none; with both tokens set, toggling twice is the identity |
| SwapTokenHomepage.ValidPreserved | frontend/src/components/SwapTokenHomepage.tsx:45-81 | every transition keeps a sell token |
| SwapTokenHomepage.InitialValid | frontend/src/components/SwapTokenHomepage.tsx:18-26 | the card starts with ETH on the sell side |
| SwapTokenHomepage.SwapRequest | frontend/src/components/SwapTokenHomepage.tsx:83-87 | the callback runs iff it exists and both amounts and both tokens are present, and receives the amounts and the two symbols |
| SwapTokenHomepage.ButtonMatchesGuard | frontend/src/components/SwapTokenHomepage.tsx:251-258 | `SwapDisabled` and `SwapLabel` are the button's state and caption: on a card with a sell token the button is enabled exactly when the swap guard lets the call through, and its caption asks for a token exactly while the buy side is empty |
| SwapTokenHomepage.SwapCard.constructor | frontend/src/components/SwapTokenHomepage.tsx:18-26 | the card starts with empty amounts, ETH to sell, no token to buy and both dropdowns closed |
| SwapTokenHomepage.SwapCard.HandleAmountChange | frontend/src/components/SwapTokenHomepage.tsx:45-59 | the new state is the amount-edit transition of the old one |
| SwapTokenHomepage.SwapCard.HandleTokenSelect | frontend/src/components/SwapTokenHomepage.tsx:61-69 | the new state is the selection transition of the old one |
| SwapTokenHomepage.SwapCard.ToggleDirection | frontend/src/components/SwapTokenHomepage.tsx:71-81 | the new state is the toggle of the old one |
| SwapTokenHomepage.SwapCard.HandleSwap | frontend/src/components/SwapTokenHomepage.tsx:83-87 | the call is the swap request of the current card, and nothing changes |
| Validation.SelectedSpec | backend/middleware/validation.js:8-28 | with distinct messages, each message is collected exactly when its check fails, nothing is collected exactly when no check fails, and at most one message comes from each check |
| Validation.OrderFailures | backend/middleware/validation.js:11-26 | the checks come in the order user address, tokenOut, amountIn, targetPrice, and each fails iff its own field is falsy or fails its address test (the two addresses) or its positivity test (the two amounts) |
| Validation.ValidateOrder | backend/middleware/validation.js:5-39 | all four checks run in order, each failing one adds its message; the request passes iff none failed, otherwise the answer is 400 "Validation failed" with the collected messages |
| Validation.SelectedFour | backend/middleware/validation.js:11-28 | four checks report their messages in check order |
| Validation.ValidateOrderReports | backend/middleware/validation.js:11-28 | at most four messages; each is reported iff its own field is falsy or fails its address or positivity test |
| Validation.ValidateAddress | backend/middleware/validation.js:42-53 | the request passes iff the address parameter is truthy and a valid address; otherwise 400 "Invalid address parameter" |
| Validation.AddressChecksAgree | backend/middleware/validation.js:42-53 | the address parameter check passes iff the order check reports no invalid user address for that same value (lines 11-13) |
| Validation.ValidatePagination | backend/middleware/validation.js:56-74 | only three outcomes; a bad page is reported iff the page is present and non-numeric or `parseInt` reads it below 1; a bad limit is reported iff the page is fine and the limit is present and non-numeric or reads outside 1 to 100; `parseInt` skips leading white space and takes a sign, as `Js.ParseInt` states |
| Validation.PaginationDefaults | backend/middleware/validation.js:59-66 | absent or empty paging parameters are accepted |
| Validation.PaginationRange | backend/middleware/validation.js:59-71 | for numeric parameters parsing to p and l the request passes iff p >= 1 and 1 <= l <= 100, and a bad page wins over a bad limit |
| Validation.PaginationDecimalStrings | backend/middleware/validation.js:59-71 | query strings holding the decimal forms of page and limit pass iff page >= 1 and 1 <= limit <= 100 |
| Validation.DecimalParameter | backend/middleware/validation.js:59-66 | a parameter holding the decimal rendering of n is present and `parseInt` reads it as n |
| Validation.PaddedSignedLimit | backend/middleware/validation.js:66 | a numeric limit written as white space, a sign and decimal digits passes iff the sign is '+' and the number is 1 to 100, so " +500" is refused |
| Validation.LimitAlone | backend/middleware/validation.js:66-71 | with no page, a numeric limit that `parseInt` reads passes iff it reads as 1 to 100 |
| WalletContext.ChainIdHex | frontend/src/contexts/WalletContext.tsx:122-123 | the rendering is "0x" followed by a numeral that reads back in base 16 as the chain id, with a leading zero digit only for chain id 0 |
| WalletContext.ChainIdHexInjective | frontend/src/contexts/WalletContext.tsx:123 | distinct chain ids render to distinct strings |
| WalletContext.TablesKeyedByChainId | frontend/src/contexts/WalletContext.tsx:19-37 | every entry of the network table, as written and corrected, is filed under its own chainId |
| WalletContext.LookupIn | frontend/src/contexts/WalletContext.tsx:127-131 | a known key gives its table entry; any other gives that chain id, "Unknown Network (hex)" and "ETH" |
| WalletContext.LookupNetwork | frontend/src/contexts/WalletContext.tsx:127-133 | the session's lookup in the table as written: the entry filed under the rendered chain id, or "Unknown Network (hex)" with "ETH"; it always carries the chain id looked up |
| WalletContext.TablesAgreeElsewhere | frontend/src/contexts/WalletContext.tsx:19-37 | the table as written and the corrected one answer alike for every chain id other than "0x11155111" and "0x4268" |
| WalletContext.LookupKeepsChainId | frontend/src/contexts/WalletContext.tsx:122-133 | the looked-up network always carries the chain id it was looked up by |
| WalletContext.HoleskyHex | frontend/src/contexts/WalletContext.tsx:123 | chain id 17000 renders as "0x4268" |
| WalletContext.HoleskyUnknownAsWritten | frontend/src/contexts/WalletContext.tsx:23-27 | with the table as written a wallet on Holesky is shown as "Unknown Network (0x4268)" |
| WalletContext.HoleskyKnown | frontend/src/contexts/WalletContext.tsx:23-27 | with Holesky filed under "0x4268" the lookup finds it |
| WalletContext.Reset | frontend/src/contexts/WalletContext.tsx:177-185 | signer, account, chain id and network cleared, balance "0", disconnected and the storage flag removed; provider, connecting flag and error kept |
| WalletContext.ResetIdempotent | frontend/src/contexts/WalletContext.tsx:177-185 | resetting twice is resetting once |
| WalletContext.NetworkUpdate | frontend/src/contexts/WalletContext.tsx:118-138 | a network answer sets the rendered chain id and the entry `LookupNetwork` gives for it from the table as written, which carries that same chain id; a throwing query only clears the network |
| WalletContext.AccountUpdate | frontend/src/contexts/WalletContext.tsx:141-174 | an empty account list changes nothing and answers false; the answer is true iff accounts, signer and balance all arrive, and then the first account is connected, the flag is "true" and the network is refreshed; any failure resets the state |
| WalletContext.RejectionMessage | frontend/src/contexts/WalletContext.tsx:292-296 | the rejection message is chosen iff the thrown value is an Error whose text contains "user rejected"; otherwise the generic one |
| WalletContext.RejectedAnywhere | frontend/src/contexts/WalletContext.tsx:292 | "user rejected" anywhere in the message selects the rejection message |
| WalletContext.WalletSession.constructor | frontend/src/contexts/WalletContext.tsx:81-89 | the session starts with no provider, signer, account or network, balance "0", not connecting, not connected and no error |
| WalletContext.WalletSession.ResetWalletState | frontend/src/contexts/WalletContext.tsx:177-185 | the new state is `Reset` of the old (also `disconnectWallet` at lines 306-308) |
| WalletContext.WalletSession.UpdateNetworkInfo | frontend/src/contexts/WalletContext.tsx:118-138 | the new state is `NetworkUpdate` of the old |
| WalletContext.WalletSession.UpdateAccountInfo | frontend/src/contexts/WalletContext.tsx:141-174 | the new state and the answer are `AccountUpdate` of the old state |
| WalletContext.WalletSession.Initialize | frontend/src/contexts/WalletContext.tsx:188-211 | auto-connect is attempted iff autoConnect holds, the stored flag is "true" and a provider could be created; connecting ends in every case |
| WalletContext.WalletSession.InitializeProvider | frontend/src/contexts/WalletContext.tsx:101-115 | a provider is created iff the browser has one and creating it does not throw; otherwise the matching error is set (lines 92-98) |
| WalletContext.WalletSession.OnAccountsChanged | frontend/src/contexts/WalletContext.tsx:217-225 | an empty list resets; the same first account, or no provider, changes nothing; otherwise the account information is refreshed |
| WalletContext.WalletSession.ConnectWallet | frontend/src/contexts/WalletContext.tsx:259-303 | the new state and the answer are `ConnectSpec` of the old state and the outcomes of the provider, the request and the account refresh |
| WalletContext.InitProvider | frontend/src/contexts/WalletContext.tsx:101-115 | the provider is present afterwards iff it was already or one could be created; no browser provider records only the error |
| WalletContext.ConnectSpec | frontend/src/contexts/WalletContext.tsx:259-303 | connecting always ends; a true answer means connected with no error and the storage flag set; no browser provider sets that error; a provider that fails to start sets its error; a thrown request resets the session with the rejection or generic message; an accepted request gives the account refresh's state, with "cannot connect" when it answers false |
| WalletContext.ShowModal | frontend/src/contexts/WalletContext.tsx:377-390 | unless the stored decline flag is "true", the prompt shows iff the wallet is disconnected; with that flag it never shows (closed when connected, lines 403-407) |
| WalletButton.FormatAddress | frontend/src/components/WalletConnectButton.tsx:18-22 | "" gives "..."; any other address gives the header's prefix-six, "...", suffix-four formula |
| WalletButton.NetworkName | frontend/src/components/WalletConnectButton.tsx:38 | the network's name when there is a non-empty one, otherwise "Unknown Network" |
| WalletButton.NetworkSymbol | frontend/src/components/WalletConnectButton.tsx:42 | the network's symbol when there is a non-empty one, otherwise "ETH" |
| WalletButton.LookedUpNetworkShown | frontend/src/components/WalletConnectButton.tsx:38-42 | a network the session looked up is always shown by its own name and symbol, so the fallbacks apply only before a lookup |
| WalletButton.ConnectButton | frontend/src/components/WalletConnectButton.tsx:66-97 | the connect button is disabled and shows the connecting label iff a connection is in progress |
| WalletButton.Render | frontend/src/components/WalletConnectButton.tsx:32-98 | the panel shows iff connected with a non-empty account, with that account shortened (line 48); otherwise the connect button, disabled iff connecting |
| WalletButton.ResetShowsPrompt | frontend/src/components/WalletConnectButton.tsx:32 | after a reset the connect button shows |

## Left out

- Chain and RPC plumbing: providers, signers, contracts, `tx.wait`, receipts and gas-price
  queries. Their results are parameters of the operations that use them.
- Transports: Express request and response objects, socket.io and ws delivery. Status codes,
  bodies and pushed messages are returned values or entries of an outbox.
- Timers and interleaving: `setInterval` and `setTimeout` scheduling, and asynchronous listeners
  interleaving with one another. Each handler is one atomic step. The 30 s and 6 h periods appear
  only as constants.
- Floating point: prices, exchange rates, mock quotes, price impact and dollar estimates. The swap
  form's opposite amount arrives as an already formatted quote. Slippage arrives as the value
  `parseFloat` produced, a real number or NaN.
- Unit formatting (`formatUnits`, `formatEther`, `toFixed`) and ISO date rendering. Amounts stay in
  raw units and times in milliseconds.
- Library predicates and tools: `isAddress`, `isNaN` and `parseFloat(...) > 0` in the middleware
  arrive as predicates. JWT signing and verification, bcrypt hashing and the express-validator
  chains arrive as their outcomes.
- Database query semantics: populate, aggregate, upsert, and Mongo comparison of strings
  (`$gt: "0"`). Stores are maps or sequences of rows.
- `getUserLiquidityPositions` and `updateTransactionStatus` (backend/controller/liquidityController.js:258-327)
  are not modelled. They are a pure store query with a string comparison, and a field overwrite.
- `getOrderDetails` of the order controller (backend/controller/orderController.js:174-217) is not
  modelled. It is a lookup followed by a chain read.
- `getUser` (backend/src/controllers/auth.controller.js:151-173) is modelled only through the
  wallet listing. Its answer is the request's user plus that list.
- `getCurrentPrice`, `GET /api/orders/pending` and `GET /api/orders/history`
  (backend/src/index.js:732-758) have no method of their own. The first is a chain read
  formatted as a float. The other two return the scan and the history list unchanged.
- `handleChainChanged`, `handleDisconnect` and `switchNetwork` (frontend/src/contexts/WalletContext.tsx:227-240, 311-340)
  have no method of their own. The first re-runs `initializeProvider`, `updateNetworkInfo` and
  `updateAccountInfo`, which are modelled. The second is `resetWalletState`. The third only
  forwards a request to the wallet.
- The modal's decline button, and the copy-to-clipboard and balance display of the wallet button.
  These are browser storage and rendering with no decision in them.
- The `isLoading`, `isSwapping`, `showSettings`, `currentPrice`, `priceImpact` and `lastUpdated`
  flags of the swap form. They only drive rendering.
- Dropdown open and close state of `SwapToken`'s token lists, and the click-outside effects other
  than the header's.
- OrderRecords.OrderStore.GetUserOrders: `page` and `limit` arrive as integers, or as absent. The
  query-string text and its implicit numeric coercion are not modelled.
- Header.Connected: an empty grant shows no address. The source stores `undefined` as the address,
  and the model stores "", which formats the same.
- Subscribers.Prices: a failed price lookup means a thrown symbol lookup. `getTokenSymbol` and
  `getPriceFromBinance` are not defined in backend/src/services/wssv.js, so their results are
  inputs.
- PriceService.GetPendingOrders: `orderCount` is an opaque input. The code reads
  `contract.limitOrders.length`, a function's arity, and not an on-chain count.
- OrderMirror.Monitor.FetchPendingOrders: `orderCount` is an opaque input, for the same reason.
- Subscribers.CollectTokens: `orderCount` is an opaque input. backend/src/services/wssv.js:162 reads
  `contract.limitOrders.length`, a function's arity, and not an on-chain count.
- Subscribers.Hub.Connect: the pending-order read is an input that may fail. `getPendingOrders` is
  not defined in backend/src/services/wssv.js (line 40), so as written the read always throws, the
  catch swallows it, and "initialData" is never sent; that is the run where the read fails.
- Subscribers.Hub.OnMessage: a request arrives already parsed. `JSON.parse` on a malformed message
  (backend/src/services/wssv.js:28) throws inside the listener, and that is not modelled.
- The `Subscribers` handlers are modelled as if backend/src/services/wssv.js loaded. As written it
  does not: line 5 is an ES-module `import` in a CommonJS file, and line 11 uses `CONTRACT_ADDRESS`
  and `CONTRACT_ABI`, which are never defined.
- Text.ToLower: only ASCII letters are lowered. JavaScript's `toLowerCase` also maps other scripts,
  and can change the length ('İ' becomes two code units). So the source's token search matches
  "É" against "é", and `SwapToken.FilterTokens` does not.
- SwapToken.FilterIgnoresCase: case is ignored for ASCII letters only, for the reason above.
- Text.ToUpper: only ASCII letters are raised. JavaScript's `toUpperCase` maps other scripts too,
  and can change the length ('ß' becomes "SS").
- Js.ToNumber: a JSON number in a request body is an integer (`Num(int)`). Fractional JSON
  numbers, and the exponent rendering `String` gives very large numbers, are not modelled; text
  amounts such as "100.5" are. `Number("Infinity")` is Infinity, which the cast stores, while the
  model reads it as a failed cast.
- Js.NumberParseInt: `parseInt` of a stored number reads its `String` rendering, so a tiny number
  such as 1e-7 reads as 1 in the source; the model truncates every number toward zero, giving 0.
- OrderRecords.OrderStore.CreateOrder: the store is modelled as if backend/controller/orderController.js
  loaded with a working provider and one version of ethers. As written, the constructor passes the
  undefined `this.provider` to the contract and wallet (lines 8-14), and mixes the ethers v6
  `JsonRpcProvider` with the v5 `ethers.utils` helpers (lines 38-39) and `receipt.events` (line 45).
  Under v5 the constructor throws when the module loads (line 309); under v6 every request that
  passes the 400 check fails at `ethers.utils` with a 500, which is the model's `unitsError` run.
- OrderRecords.OrderStore.CancelOrder: modelled with a working signer for the same reason. As
  written, the wallet has no provider, so sending the cancellation fails with a 500.
- Liquidity.LiquidityBook.SaveAddLiquidity: the `status` argument is read and passed to the
  document (backend/controller/liquidityController.js:165), but backend/models/position.js has no
  `status` path, so the strict schema drops it and the model stores no status at all. The same
  holds for the status given to `SaveRemoveLiquidity`.
- WalletContext.LookupNetwork: the session uses the network table as written. The corrected table
  appears only in the finding below.

## Findings

| source | as written | input that shows it | evidently intended | confidence | as-written member | corrected member |
|---|---|---|---|---|---|---|
| frontend/src/contexts/WalletContext.tsx:23-27 | Holesky is filed under "0x11155111". That is Sepolia's decimal chain id 11155111 with a hexadecimal prefix. | A wallet on Holesky, chain id 17000, renders as "0x4268". That key is not in the table, so the network is shown as "Unknown Network (0x4268)". | Holesky filed under "0x4268" | not executed | WalletContext.HoleskyUnknownAsWritten | WalletContext.HoleskyKnown |
