# llm-trader paper broker and quote helpers, in Dafny

This project models two parts of llm-trader, a trading assistant.

- **The paper-trading ledger `PaperBroker` (src/broker.py).** It keeps one cash balance, a table of holdings with one row per symbol, and an append-only journal of executed orders. Deposits and withdrawals move cash. An order goes through these steps:
  - the side is validated;
  - a price is resolved, either the explicit one or the quote provider's;
  - cash or the holding is checked;
  - cash and the holding are updated, with a weighted average cost on a buy, and the holding is deleted when a sell empties it;
  - one journal record is appended.
- **The pure string logic of the quote layer (src/market.py).** This covers:
  - turning A-share and Hong Kong codes into Yahoo Finance tickers;
  - choosing a translator by market in `get_quote`;
  - building the Sina quote URL;
  - splitting Sina's `hq_str` payload and choosing its price field.

The project has four files:

- `wrappers.dfy`: the `Option`, `Result` and `Outcome` types.
- `text.dfy`: the Python string operations the broker and the quote helpers use.
  - ASCII `lower`/`upper`.
  - `strip`, with or without a character set.
  - `split` and `join` on one character.
  - `in`, the first occurrence of a character, `int` on a digit string, and `zfill`.
- `market.dfy`: the quote-layer functions.
- `broker.dfy`: the ledger.
  - `Book` is the account's contents as a value.
  - The functions over `Book` (`DepositTo`, `WithdrawFrom`, `Execute`, `Settle`, `BuyInto`, `SellFrom`) say what each operation does.
  - The class `PaperBroker` holds `cash`, `positions` (symbol to `Holding`) and `orders` as fields and updates them step by step. Each method's postcondition ties `Snapshot()` after the call to those functions, applied to the state before it.

Arithmetic is exact (`real`), not floating point. Every `ValueError` the broker raises becomes an `Error` value: `InvalidSide`, `PriceUnavailable`, `InsufficientCash` or `InsufficientPosition`. A refused operation leaves the state exactly as it was.

The model follows the code, including these behaviours:

- The code never checks the sign of an amount, quantity or price, so a negative deposit overdraws (see `Broker.NegativeDepositOverdraws`). The invariant lemmas take positivity as a hypothesis.
- Holdings are keyed by `symbol` alone, as the unique index at src/broker.py:20 says; a holding's market is stored with it but plays no part in finding it.
- `place_order` returns nothing in the source; `PlaceOrder` returns the journal record it appended, or the error.
- An explicit price of 0 is accepted, because the code tests `price is None`. A quoted price of 0 is refused, because it is falsy.

## Model

| member | source | states |
|---|---|---|
| Text.Lower | src/broker.py:65 | `side.lower()`: same length, each character mapped by ASCII lower-casing |
| Text.Upper | src/broker.py:106 | `market.upper()`: same length, each character mapped by ASCII upper-casing |
| Text.Trim | src/market.py:79 | `strip(chars)`: the result is no longer than the input, and neither end of it is a stripped character |
| Text.TrimKeepsSlice | src/market.py:79 | the stripped string is a contiguous slice of the input, and everything cut away on either side consists of stripped characters |
| Text.Strip | src/market.py:38 | `strip()`: neither end of the result is whitespace |
| Text.TrimAround | src/market.py:79 | stripping removes exactly the stripped characters wrapped around a core that does not start or end with one |
| Text.Contains | src/market.py:77 | `sub in s`: true exactly when `sub` occurs at some position of `s` |
| Text.ContainsAppend | src/market.py:77 | a substring of `s` is a substring of `s + t` |
| Text.FirstIndex | src/market.py:79 | the index of the first `c`, the split point of `split(c, 1)`: the index found holds `c` and no earlier index does, and no index means `c` does not occur |
| Text.Split | src/market.py:80 | `split(",")`: at least one piece, and no piece contains the separator |
| Text.JoinSplit | src/market.py:80 | joining the pieces of a split restores the string |
| Text.SplitJoin | src/market.py:80 | splitting a join of separator-free pieces returns the pieces |
| Text.ParseInt | src/market.py:48 | `int(code)` succeeds exactly on non-empty ASCII digit strings |
| Text.ZFill | src/market.py:49 | `zfill(width)`: the length is the larger of `width` and the input length, the result ends with the input, and everything before the input is `0` |
| Text.ZFillKeepsValue | src/market.py:47-49 | zero padding keeps a numeral a numeral with the same value |
| Text.DigitsBelow | src/market.py:48 | a string of n digits denotes a number below 10^n |
| Market.ShanghaiListed | src/market.py:39 | `startswith(("6", "9"))`: true exactly when the code starts with `6` or with `9` |
| Market.AShareToYahoo | src/market.py:37-42 | the stripped code followed by `.SS` exactly when it starts with 6 or 9, and by `.SZ` exactly otherwise |
| Market.PadBelow | src/market.py:46-51 | a numeral below the limit is zero-padded to the width; anything else is kept as it is; the result always ends with the code, is preceded only by zeros, and keeps its `int` value |
| Market.HkToYahoo | src/market.py:45-52 | the stripped code, padded to 4 when it is a numeral below 1000, followed by `.HK` |
| Market.PadsShortNumeral | src/market.py:47-49 | a numeral with fewer digits than the limit has is always padded: zeros up to the width, then the code |
| Market.ShortHkTicker | src/market.py:45-52 | a code of at most three digits becomes zeros, then the code, then `.HK`, four digits in all |
| Market.ShenzhenExample | src/market.py:37-42 | `000001` becomes `000001.SZ` |
| Market.ShanghaiExample | src/market.py:37-42 | ` 600519\n` strips to `600519` and becomes `600519.SS` |
| Market.YahooSymbol | src/market.py:113-118 | the upper-cased market `A` uses the A-share rule, `HK` the HK rule, and any other market passes the symbol through unchanged |
| Market.SinaCode | src/market.py:61-73 | for A, `sh` exactly when the code starts with 6 or 9, else `sz`, then the stripped code; for HK, `hk` then the code padded to 5 when it is a numeral below 10000; nothing for any other market |
| Market.ShortHkSinaCode | src/market.py:64-71 | an HK code of at most four digits becomes `hk`, then zeros, then the code, five digits in all |
| Market.SinaUrl | src/market.py:61-73 | a URL exists exactly when the market is A or HK; it is the Sina list URL followed by the instrument code |
| Market.SinaFields | src/market.py:79-80 | fields exist exactly when the text contains `=`; there is at least one, and none contains a comma |
| Market.SinaFieldsJoin | src/market.py:79-80 | the fields, joined back with commas, are the text after the first `=` stripped of whitespace and then of `"`/`;`; with the comma-free clause this makes them exactly the pieces `split(",")` gives |
| Market.PriceField | src/market.py:84-98 | the selected index is 3 for A; otherwise 6 when there are more than 6 fields, else 1; a price exists exactly when that field exists and is non-empty, and it is that field |
| Market.ParseSina | src/market.py:76-106 | a quote is returned exactly when the text mentions `hq_str`, has an `=`, and its first field is non-empty; the quote carries the symbol, field 0 as the name and the `PriceField` choice as the price |
| Market.SinaQuoteOf | src/market.py:55-108 | no quote for markets other than A and HK or for a failed request; otherwise the parse of the response |
| Market.SinaResponseRoundTrip | src/market.py:76-106 | a well-formed response `<prefix>="f0,f1,...";` parses back to field 0 as the name and the selected field as the price |
| Broker.InitAccount | src/broker.py:18-25 | a missing account is created with cash 0; an existing one is kept unchanged |
| Broker.StoredBalance | src/broker.py:27-29 | the stored cash, or 0 when there is no account |
| Broker.InitAccountIdempotent | src/broker.py:22-25 | initialising twice equals initialising once and never changes an existing balance |
| Broker.DepositTo | src/broker.py:31-36 | cash grows by exactly the amount; holdings and journal are unchanged |
| Broker.WithdrawFrom | src/broker.py:38-45 | refused (InsufficientCash) exactly when the amount exceeds the cash; otherwise cash falls by exactly the amount and stays non-negative |
| Broker.DepositKeepsValid | src/broker.py:31-36 | a non-negative deposit keeps the accounting invariants |
| Broker.WithdrawKeepsValid | src/broker.py:38-45 | an accepted withdrawal keeps the accounting invariants |
| Broker.NegativeDepositOverdraws | src/broker.py:31-36 | with no sign check, a deposit of -1 into an empty account breaks cash >= 0 |
| Broker.ParseSide | src/broker.py:65-67 | buy exactly when the lower-cased side is `buy`, sell exactly when it is `sell`, otherwise none |
| Broker.ResolvePrice | src/broker.py:68-72 | an explicit price always wins; otherwise the quote, refused (PriceUnavailable) exactly when it is absent or zero |
| Broker.BuyInto | src/broker.py:86-112 | an existing holding keeps its market and adds the quantity; when the new quantity is positive its quantity times average grows by exactly the cost, otherwise the average becomes the price; a new holding is (upper-cased market, quantity, price) |
| Broker.BuyIntoExisting | src/broker.py:88-99 | the buy update written out for `SettleOrder`'s proof, adding no property of its own: quantity old + q, average (old_q*old_avg + cost)/new_q, or the price when new_q <= 0 |
| Broker.BuyAverage | src/broker.py:91-92 | when the new quantity is positive, the new average is (exposure + cost) / new quantity |
| Broker.BuysCommute | src/broker.py:86-99 | two buys of positive quantity into a missing holding or one of non-negative quantity give the same holding in either order |
| Broker.NonPositiveBuyResetsAverage | src/broker.py:90-92 | with no sign check, buying -1 at 5 into 1 held at 10 leaves quantity 0 at average 5, so the exposure drops by 10 instead of growing by the cost of -5 |
| Broker.BuysAccumulate | src/broker.py:86-99 | successive buys of positive quantity into a holding of positive quantity add their quantities and add their costs to the exposure |
| Broker.WeightedMean | src/broker.py:86-112 | after one or more buys of positive quantity starting from no holding, the quantity is the total bought and the average is the quantity-weighted mean price |
| Broker.SellFrom | src/broker.py:113-134 | refused (InsufficientPosition) exactly when there is no holding or it is smaller than the quantity; deleted when exactly nothing remains; otherwise only the quantity drops |
| Broker.Lookup | src/broker.py:86 | `find_one({"symbol": symbol})`: a holding exactly when the symbol is held, and then that symbol's holding |
| Broker.Settle | src/broker.py:76-144 | buy refused exactly when cost > cash; sell refused exactly when the holding is missing or too small; else cash moves by exactly price*quantity, only the symbol's holding changes, and exactly one record is appended |
| Broker.SettledBuy | src/broker.py:79-112 | an affordable buy gives the new book written out in full, for `SettleOrder`'s proof; it adds no property of its own |
| Broker.SettledSell | src/broker.py:113-134 | a coverable sell gives the new book written out in full, deleting the holding at zero, for `SettleOrder`'s proof; it adds no property of its own |
| Broker.Execute | src/broker.py:57-144 | invalid side, then missing price, are refused in that order before any settlement; otherwise the settlement with the parsed side and resolved price |
| Broker.JournalAppendOnly | src/broker.py:136-144 | a successful order keeps every earlier record and appends exactly one, whose side is the lower-cased side |
| Broker.BuyConservesValue | src/broker.py:79-112 | a buy that opens a holding, or leaves an existing one with a positive quantity, keeps cash plus the holding's exposure unchanged |
| Broker.ExecuteKeepsValid | src/broker.py:57-144 | with positive quantity and non-negative prices, an order keeps cash >= 0, quantities > 0 and averages >= 0 |
| Broker.BuyThenSellRestores | src/broker.py:79-134 | buying q at p into an unheld symbol and selling q at p restores cash and holdings and adds two records |
| Broker.TradingScenario | src/broker.py:31-144 | deposit 1,000,000, buy 10 of 600519 at 1,800 (cash 982,000), sell at 1,900 (cash 1,001,000, no holding, two records) |
| Broker.PaperBroker.constructor | src/broker.py:11-25 | cash is the initialised stored balance; holdings and journal are those given |
| Broker.PaperBroker.GetBalance | src/broker.py:27-29 | the current cash |
| Broker.PaperBroker.Deposit | src/broker.py:31-36 | the new state is `DepositTo` of the old |
| Broker.PaperBroker.Withdraw | src/broker.py:38-45 | the new state is `WithdrawFrom` of the old, or unchanged on failure with its error |
| Broker.PaperBroker.GetPositions | src/broker.py:47-55 | one row per holding, each symbol once, each row that symbol's market, quantity and average |
| Broker.PaperBroker.GetOrders | src/broker.py:146-159 | the journal newest first: row i is record n-1-i with its journal position as id |
| Broker.PaperBroker.PlaceOrder | src/broker.py:57-144 | succeeds exactly when `Execute` does; the new state is `Execute` of the old and the result is the appended record; on failure the state is unchanged and the error is `Execute`'s |
| Broker.PaperBroker.SettleOrder | src/broker.py:74-144 | the same for `Settle`, once side and price are known |

## Left out

- MongoDB is replaced by in-memory fields: `MongoClient`, the `$inc`/`$setOnInsert` operators and index creation. The unique index on `symbol` becomes the map key. `__init__`'s URI and database name are not modelled. The database's prior contents are constructor parameters.
- Order ids: `ObjectId`s are replaced by the record's position in the journal. This assumes that sorting by `_id` is insertion order.
- The order timestamp (`datetime.utcnow()`) is omitted. It is nondeterministic.
- Floating point and `float()` conversions are omitted; arithmetic is exact.
- Broker.PaperBroker.PlaceOrder: the quote provider `get_quote` is replaced by its price, given as `Option<real>`. Its Yahoo-to-Sina fallback chain and network calls are not modelled.
- Market.SinaQuoteOf: the HTTP exchange is replaced by its response text (`None` for a failed request). The request headers and timeout are not modelled.
- Market.ParseSina: the price is the selected field's text. Its conversion by `float` is not modelled, and neither is that conversion's failure path.
- Concurrency and atomicity: the source runs without transactions (src/broker.py:78). Each operation is one sequential step.
- Text.ParseInt: Python's `int` also accepts signs, surrounding whitespace, underscores and non-ASCII digits. Only ASCII digit strings are modelled; anything else counts as "int raises". So Market.PadBelow, Market.HkToYahoo and Market.SinaCode keep such codes unpadded: the source turns `+5` into `+005.HK` and `1_0` into `01_0.HK`, while the model gives `+5.HK` and `1_0.HK`.
- Text.Lower, Text.Upper, Text.Strip: ASCII only, with no Unicode case mapping or non-ASCII whitespace.
- Text.ZFill: it does not model `zfill`'s handling of a leading sign. It is applied only to digit strings here.
- The network and library parts of src/market.py are not part of this model: `_yf_available`, `_yahoo_quote`, the yfinance branch of `get_quote`, and `get_history`.
- src/stock_capture.py, src/search.py, src/llm.py, src/agents.py, src/stock_a.py, src/stock_hk.py, src/excel.py, src/config.py and cli.py are not part of this model.
