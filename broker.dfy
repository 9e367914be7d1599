/** The paper-trading account of src/broker.py: one cash balance, a table of holdings
    keyed by symbol, and an append-only journal of executed orders.

    `Book` is the account's contents as a value and the functions over it say what each
    operation does to it; the class `PaperBroker` holds the same three collections as
    fields and updates them step by step, as the source does, with each method's
    postcondition tying its new state to those functions. */
module Broker {
  import opened Wrappers
  import opened Text

  // ---------------------------------------------------------------- data

  datatype Side = Buy | Sell
  {
    /** The side as logged in an order record. */
    function Name(): string
    {
      if Buy? then "buy" else "sell"
    }
  }

  /** A row of the `positions` table; the table's unique `symbol` is the map key. */
  datatype Holding = Holding(market: string, quantity: real, avgPrice: real)

  /** A row of the `orders` table (its timestamp is not modelled). */
  datatype Order = Order(symbol: string, market: string, side: Side, quantity: real, price: real)

  /** What `get_positions` lists for one holding. */
  datatype PositionRow = PositionRow(symbol: string, market: string, quantity: real, avgPrice: real)

  /** What `get_orders` lists for one order; `id` is its place in the journal. */
  datatype OrderRow = OrderRow(id: nat, order: Order)

  /** The reasons an operation is refused (each a `ValueError` in the source). */
  datatype Error = InvalidSide | PriceUnavailable | InsufficientCash | InsufficientPosition

  /** The account's three collections. */
  datatype Book = Book(cash: real, positions: map<string, Holding>, orders: seq<Order>)

  /** The accounting invariants: cash is never negative, and every holding kept has a
      positive quantity and a non-negative average cost. */
  predicate Valid(b: Book)
  {
    && b.cash >= 0.0
    && forall s :: s in b.positions ==> b.positions[s].quantity > 0.0 && b.positions[s].avgPrice >= 0.0
  }

  /** What a holding cost in total: quantity times average price. */
  function Exposure(h: Holding): real
  {
    h.quantity * h.avgPrice
  }

  // ---------------------------------------------------------------- account

  /** `_init_db`'s upsert with `$setOnInsert`: a missing account document is created
      with zero cash, an existing one is kept as it is. */
  function InitAccount(account: Option<real>): (r: Option<real>)
    ensures r.Some?
    ensures account.Some? ==> r == account
    ensures account.None? ==> r == Some(0.0)
  {
    if account.None? then Some(0.0) else account
  }

  /** `get_balance`: the stored cash, or 0 when there is no account document. */
  function StoredBalance(account: Option<real>): (r: real)
    ensures account.None? ==> r == 0.0
    ensures account.Some? ==> r == account.value
  {
    match account
    case None => 0.0
    case Some(cash) => cash
  }

  /** Opening the account twice is the same as opening it once: initialisation never
      resets an existing balance. */
  lemma InitAccountIdempotent(account: Option<real>)
    ensures InitAccount(InitAccount(account)) == InitAccount(account)
    ensures StoredBalance(InitAccount(account)) == StoredBalance(account)
  {
  }

  /** `deposit`: cash grows by exactly `amount`; holdings and journal are untouched. */
  function DepositTo(b: Book, amount: real): (r: Book)
    ensures r.cash == b.cash + amount
    ensures r.positions == b.positions && r.orders == b.orders
  {
    b.(cash := b.cash + amount)
  }

  /** `withdraw`: refused when `amount` exceeds the balance, leaving everything as it
      was; otherwise cash falls by exactly `amount` and, when it was not negative, stays
      not negative. */
  function WithdrawFrom(b: Book, amount: real): (r: Result<Book, Error>)
    ensures r.Err? <==> amount > b.cash
    ensures r.Err? ==> r.error == InsufficientCash
    ensures r.Ok? ==> r.value == b.(cash := b.cash - amount) && r.value.cash >= 0.0
  {
    if amount > b.cash then Err(InsufficientCash) else Ok(b.(cash := b.cash - amount))
  }

  lemma DepositKeepsValid(b: Book, amount: real)
    requires Valid(b) && amount >= 0.0
    ensures Valid(DepositTo(b, amount))
  {
  }

  lemma WithdrawKeepsValid(b: Book, amount: real)
    requires Valid(b) && WithdrawFrom(b, amount).Ok?
    ensures Valid(WithdrawFrom(b, amount).value)
  {
  }

  /** The source does not check the sign of a deposit: a negative one overdraws. */
  lemma NegativeDepositOverdraws()
    ensures Valid(Book(0.0, map[], [])) && !Valid(DepositTo(Book(0.0, map[], []), -1.0))
  {
  }

  // ---------------------------------------------------------------- order pieces

  /** `side.lower()` checked against `buy` and `sell`. */
  function ParseSide(side: string): (r: Option<Side>)
    ensures r == Some(Buy) <==> Lower(side) == "buy"
    ensures r == Some(Sell) <==> Lower(side) == "sell"
    ensures r.Some? ==> r.value.Name() == Lower(side)
  {
    var s := Lower(side);
    if s == "buy" then Some(Buy) else if s == "sell" then Some(Sell) else None
  }

  /** The execution price: an explicit price always wins (even zero, since the source
      tests it against `None`); otherwise the quoted price, refused when it is absent or
      zero (falsy). */
  function ResolvePrice(price: Option<real>, quote: Option<real>): (r: Result<real, Error>)
    ensures price.Some? ==> r == Ok(price.value)
    ensures price.None? && quote.Some? && quote.value != 0.0 ==> r == Ok(quote.value)
    ensures r.Err? <==> price.None? && (quote.None? || quote.value == 0.0)
    ensures r.Err? ==> r.error == PriceUnavailable
  {
    match price
    case Some(p) => Ok(p)
    case None =>
      if quote.None? || quote.value == 0.0 then Err(PriceUnavailable) else Ok(quote.value)
  }

  /** The holding after buying `quantity` at `price`: an existing one adds the quantity
      and takes the weighted average cost (its market is kept), so its exposure grows by
      exactly the cost; a missing one is created at the upper-cased market with the
      price as its average. */
  function BuyInto(h: Option<Holding>, market: string, quantity: real, price: real): (r: Holding)
    ensures h.None? ==> r == Holding(Upper(market), quantity, price)
    ensures h.Some? ==> r.market == h.value.market && r.quantity == h.value.quantity + quantity
    ensures h.Some? && r.quantity > 0.0 ==> Exposure(r) == Exposure(h.value) + price * quantity
    ensures h.Some? && r.quantity <= 0.0 ==> r.avgPrice == price
  {
    match h
    case None => Holding(Upper(market), quantity, price)
    case Some(cur) =>
      var newQ := cur.quantity + quantity;
      var cost := price * quantity;
      var newAvg := if newQ > 0.0 then (cur.quantity * cur.avgPrice + cost) / newQ else price;
      assert newQ > 0.0 ==> newQ * newAvg == cur.quantity * cur.avgPrice + cost;
      Holding(cur.market, newQ, newAvg)
  }

  /** The holding after selling `quantity`: refused when nothing is held or less than
      `quantity` is; closed (`None`) when exactly nothing remains; otherwise only the
      quantity drops and the average cost is kept. */
  function SellFrom(h: Option<Holding>, quantity: real): (r: Result<Option<Holding>, Error>)
    ensures r.Err? <==> h.None? || h.value.quantity < quantity
    ensures r.Err? ==> r.error == InsufficientPosition
    ensures r.Ok? && h.value.quantity == quantity ==> r.value.None?
    ensures r.Ok? && h.value.quantity != quantity ==>
              r.value == Some(h.value.(quantity := h.value.quantity - quantity))
  {
    match h
    case None => Err(InsufficientPosition)
    case Some(cur) =>
      if cur.quantity < quantity then Err(InsufficientPosition)
      else
        var newQ := cur.quantity - quantity;
        if newQ == 0.0 then Ok(None) else Ok(Some(cur.(quantity := newQ)))
  }

  /** `positions.find_one({"symbol": symbol})`: the holding of `symbol`, if there is one. */
  function Lookup(positions: map<string, Holding>, symbol: string): (r: Option<Holding>)
    ensures r.Some? <==> symbol in positions
    ensures r.Some? ==> r.value == positions[symbol]
  {
    if symbol in positions then Some(positions[symbol]) else None
  }

  // ---------------------------------------------------------------- place_order

  /** The settlement step of `place_order` once side and price are known. A buy is
      refused when its cost exceeds the cash, a sell when the holding is missing or too
      small; a refusal changes nothing. Otherwise cash moves by exactly price times
      quantity, only the holding of `symbol` changes, and exactly one record is
      appended to the journal. */
  function Settle(b: Book, symbol: string, market: string, side: Side, quantity: real, p: real): (r: Result<Book, Error>)
    ensures side == Buy ==>
              (r.Err? <==> p * quantity > b.cash)
              && (r.Err? ==> r.error == InsufficientCash)
              && (r.Ok? ==> r.value.cash == b.cash - p * quantity
                            && symbol in r.value.positions
                            && r.value.positions[symbol] == BuyInto(Lookup(b.positions, symbol), market, quantity, p))
    ensures side == Sell ==>
              (r.Err? <==> symbol !in b.positions || b.positions[symbol].quantity < quantity)
              && (r.Err? ==> r.error == InsufficientPosition)
              && (r.Ok? ==> r.value.cash == b.cash + p * quantity
                            && (b.positions[symbol].quantity == quantity <==> symbol !in r.value.positions)
                            && (symbol in r.value.positions ==>
                                  r.value.positions[symbol] == b.positions[symbol].(quantity := b.positions[symbol].quantity - quantity)))
    ensures r.Ok? ==> r.value.orders == b.orders + [Order(symbol, Upper(market), side, quantity, p)]
    ensures r.Ok? ==> forall s :: s != symbol ==> Lookup(r.value.positions, s) == Lookup(b.positions, s)
  {
    var order := Order(symbol, Upper(market), side, quantity, p);
    var cost := p * quantity;
    if side == Buy then
      if cost > b.cash then Err(InsufficientCash)
      else
        var h := BuyInto(Lookup(b.positions, symbol), market, quantity, p);
        Ok(Book(b.cash - cost, b.positions[symbol := h], b.orders + [order]))
    else
      match SellFrom(Lookup(b.positions, symbol), quantity)
      case Err(e) => Err(e)
      case Ok(None) => Ok(Book(b.cash + cost, b.positions - {symbol}, b.orders + [order]))
      case Ok(Some(h)) => Ok(Book(b.cash + cost, b.positions[symbol := h], b.orders + [order]))
  }

  /** `place_order` on the account's contents. The checks run in the source's order: an
      invalid side is refused before anything else (the quote is never consulted), then
      a missing price, then the settlement's own checks. */
  function Execute(b: Book, symbol: string, market: string, side: string, quantity: real,
                   price: Option<real>, quote: Option<real>): (r: Result<Book, Error>)
    ensures ParseSide(side).None? ==> r == Err(InvalidSide)
    ensures ParseSide(side).Some? && ResolvePrice(price, quote).Err? ==> r == Err(PriceUnavailable)
    ensures ParseSide(side).Some? && ResolvePrice(price, quote).Ok? ==>
              r == Settle(b, symbol, market, ParseSide(side).value, quantity, ResolvePrice(price, quote).value)
  {
    match ParseSide(side)
    case None => Err(InvalidSide)
    case Some(s) =>
      match ResolvePrice(price, quote)
      case Err(e) => Err(e)
      case Ok(p) => Settle(b, symbol, market, s, quantity, p)
  }

  // ---------------------------------------------------------------- properties

  /** An order that is refused leaves no trace; one that executes adds exactly one
      journal record after all earlier ones. */
  lemma JournalAppendOnly(b: Book, symbol: string, market: string, side: string, quantity: real,
                          price: Option<real>, quote: Option<real>)
    ensures var r := Execute(b, symbol, market, side, quantity, price, quote);
              r.Ok? ==> |r.value.orders| == |b.orders| + 1 && r.value.orders[..|b.orders|] == b.orders
                        && r.value.orders[|b.orders|].side.Name() == Lower(side)
  {
    var r := Execute(b, symbol, market, side, quantity, price, quote);
    if r.Ok? {
      assert r.value.orders[..|b.orders|] == b.orders;
    }
  }

  /** A buy moves value from cash into the holding and creates none: cash plus the
      holding's exposure is the same before and after. */
  lemma BuyConservesValue(b: Book, symbol: string, market: string, quantity: real, p: real)
    requires Settle(b, symbol, market, Buy, quantity, p).Ok?
    requires symbol in b.positions ==> b.positions[symbol].quantity + quantity > 0.0
    ensures var after := Settle(b, symbol, market, Buy, quantity, p).value;
            var before := if symbol in b.positions then Exposure(b.positions[symbol]) else 0.0;
            after.cash + Exposure(after.positions[symbol]) == b.cash + before
  {
    var after := Settle(b, symbol, market, Buy, quantity, p).value;
    if symbol !in b.positions {
      assert after.positions[symbol] == Holding(Upper(market), quantity, p);
      assert Exposure(after.positions[symbol]) == p * quantity;
    }
  }

  /** Executing an order with a positive quantity at a non-negative price keeps the
      accounting invariants. */
  lemma ExecuteKeepsValid(b: Book, symbol: string, market: string, side: string, quantity: real,
                          price: Option<real>, quote: Option<real>)
    requires Valid(b) && quantity > 0.0
    requires price.Some? ==> price.value >= 0.0
    requires quote.Some? ==> quote.value >= 0.0
    ensures var r := Execute(b, symbol, market, side, quantity, price, quote);
              r.Ok? ==> Valid(r.value)
  {
    var r := Execute(b, symbol, market, side, quantity, price, quote);
    if r.Ok? {
      var p := ResolvePrice(price, quote).value;
      assert p >= 0.0;
      if ParseSide(side) == Some(Buy) {
        var h := BuyInto(Lookup(b.positions, symbol), market, quantity, p);
        if symbol in b.positions {
          var cur := b.positions[symbol];
          BuyAveragePositive(cur, quantity, p);
        }
        assert h.quantity > 0.0 && h.avgPrice >= 0.0;
      } else {
        assert p * quantity >= 0.0;
      }
    }
  }

  lemma BuyAveragePositive(cur: Holding, quantity: real, price: real)
    requires cur.quantity > 0.0 && cur.avgPrice >= 0.0 && quantity > 0.0 && price >= 0.0
    ensures BuyInto(Some(cur), "", quantity, price).avgPrice >= 0.0
  {
    var newQ := cur.quantity + quantity;
    var num := cur.quantity * cur.avgPrice + price * quantity;
    assert num >= 0.0;
    assert newQ > 0.0;
    assert BuyInto(Some(cur), "", quantity, price).avgPrice == num / newQ;
  }

  /** Buying `q` at `p` into a symbol not held and then selling `q` at `p` restores the
      cash and leaves no holding. */
  lemma BuyThenSellRestores(b: Book, symbol: string, market: string, q: real, p: real)
    requires symbol !in b.positions && p * q <= b.cash
    ensures var r1 := Execute(b, symbol, market, "buy", q, Some(p), None);
            r1.Ok? &&
            var r2 := Execute(r1.value, symbol, market, "sell", q, Some(p), None);
            r2.Ok? && r2.value.cash == b.cash && r2.value.positions == b.positions
            && |r2.value.orders| == |b.orders| + 2
  {
    assert Lower("buy") == "buy";
    assert Lower("sell") == "sell";
    var h := Holding(Upper(market), q, p);
    SettledBuy(b, symbol, market, q, p);
    var b1 := Book(b.cash - p * q, b.positions[symbol := h], b.orders + [Order(symbol, Upper(market), Buy, q, p)]);
    assert Execute(b, symbol, market, "buy", q, Some(p), None) == Ok(b1);
    SettledSell(b1, symbol, market, q, p);
    assert b1.positions - {symbol} == b.positions;
  }


  /** One buy: its quantity and price. */
  datatype Fill = Fill(quantity: real, price: real)

  /** A run of buys of one symbol, applied in order. */
  function BuyAll(h: Option<Holding>, market: string, fills: seq<Fill>): Option<Holding>
    decreases |fills|
  {
    if fills == [] then h
    else BuyAll(Some(BuyInto(h, market, fills[0].quantity, fills[0].price)), market, fills[1..])
  }

  function TotalQuantity(fills: seq<Fill>): real
    decreases |fills|
  {
    if fills == [] then 0.0 else fills[0].quantity + TotalQuantity(fills[1..])
  }

  function TotalCost(fills: seq<Fill>): real
    decreases |fills|
  {
    if fills == [] then 0.0 else fills[0].price * fills[0].quantity + TotalCost(fills[1..])
  }

  /** Buys into an existing holding add their quantities, and their costs to its exposure. */
  lemma {:induction false} BuysAccumulate(h: Holding, market: string, fills: seq<Fill>)
    requires h.quantity > 0.0
    requires forall i :: 0 <= i < |fills| ==> fills[i].quantity > 0.0
    ensures var r := BuyAll(Some(h), market, fills);
              r.Some? && r.value.market == h.market
              && r.value.quantity == h.quantity + TotalQuantity(fills)
              && Exposure(r.value) == Exposure(h) + TotalCost(fills)
    decreases |fills|
  {
    if fills != [] {
      var next := BuyInto(Some(h), market, fills[0].quantity, fills[0].price);
      BuysAccumulate(next, market, fills[1..]);
    }
  }

  lemma {:induction false} TotalQuantityPositive(fills: seq<Fill>)
    requires forall i :: 0 <= i < |fills| ==> fills[i].quantity > 0.0
    ensures TotalQuantity(fills) >= 0.0
    ensures fills != [] ==> TotalQuantity(fills) > 0.0
    decreases |fills|
  {
    if fills != [] {
      TotalQuantityPositive(fills[1..]);
    }
  }

  lemma DivideOut(x: real, y: real, c: real)
    requires x > 0.0 && x * y == c
    ensures y == c / x
  {
  }

  /** The source does not check the sign of a quantity: a buy that takes the holding to
      zero resets the average to the price, so the exposure no longer grows by the cost. */
  lemma NonPositiveBuyResetsAverage()
    ensures var before := Holding("A", 1.0, 10.0);
            var after := BuyInto(Some(before), "A", -1.0, 5.0);
            after == Holding("A", 0.0, 5.0)
            && Exposure(after) == 0.0 && Exposure(before) + 5.0 * -1.0 == 5.0
  {
  }

  /** Several buys of one symbol starting from no holding: the quantity is the sum of
      the quantities bought, and the average cost is the quantity-weighted mean of the
      prices paid. */
  lemma WeightedMean(market: string, fills: seq<Fill>)
    requires |fills| >= 1
    requires forall i :: 0 <= i < |fills| ==> fills[i].quantity > 0.0
    ensures var r := BuyAll(None, market, fills);
              r.Some? && r.value.market == Upper(market)
              && r.value.quantity == TotalQuantity(fills) > 0.0
              && r.value.avgPrice == TotalCost(fills) / TotalQuantity(fills)
  {
    var first := BuyInto(None, market, fills[0].quantity, fills[0].price);
    var rest := fills[1..];
    assert BuyAll(None, market, fills) == BuyAll(Some(first), market, rest);
    BuysAccumulate(first, market, rest);
    TotalQuantityPositive(fills);
    var r := BuyAll(Some(first), market, rest).value;
    FirstFill(first, fills, r);
    MeanOf(r, fills);
  }

  lemma MeanOf(r: Holding, fills: seq<Fill>)
    requires r.quantity == TotalQuantity(fills) > 0.0
    requires r.quantity * r.avgPrice == TotalCost(fills)
    ensures r.avgPrice == TotalCost(fills) / TotalQuantity(fills)
  {
    DivideOut(r.quantity, r.avgPrice, TotalCost(fills));
  }

  lemma FirstFill(first: Holding, fills: seq<Fill>, r: Holding)
    requires |fills| >= 1 && first == Holding(first.market, fills[0].quantity, fills[0].price)
    requires r.quantity == first.quantity + TotalQuantity(fills[1..])
    requires Exposure(r) == Exposure(first) + TotalCost(fills[1..])
    ensures r.quantity == TotalQuantity(fills) && r.quantity * r.avgPrice == TotalCost(fills)
  {
    assert Exposure(first) == fills[0].price * fills[0].quantity;
  }

  /** The average cost after a buy into an existing holding, written out. */
  lemma BuyAverage(h: Holding, market: string, q: real, p: real)
    requires h.quantity + q > 0.0
    ensures BuyInto(Some(h), market, q, p).avgPrice == (Exposure(h) + p * q) / (h.quantity + q)
  {
    var r := BuyInto(Some(h), market, q, p);
    DivideOut(r.quantity, r.avgPrice, Exposure(h) + p * q);
  }

  /** Two buys of one symbol leave the same holding in either order. */
  lemma BuysCommute(h: Option<Holding>, market: string, q1: real, p1: real, q2: real, p2: real)
    requires h.Some? ==> h.value.quantity >= 0.0
    requires q1 > 0.0 && q2 > 0.0
    ensures BuyInto(Some(BuyInto(h, market, q1, p1)), market, q2, p2)
            == BuyInto(Some(BuyInto(h, market, q2, p2)), market, q1, p1)
  {
    var h1 := BuyInto(h, market, q1, p1);
    var h2 := BuyInto(h, market, q2, p2);
    var e := if h.Some? then Exposure(h.value) else 0.0;
    var q := if h.Some? then h.value.quantity else 0.0;
    assert Exposure(h1) == e + p1 * q1 && h1.quantity == q + q1;
    assert Exposure(h2) == e + p2 * q2 && h2.quantity == q + q2;
    BuyAverage(h1, market, q2, p2);
    BuyAverage(h2, market, q1, p1);
    assert h1.quantity + q2 == h2.quantity + q1;
    assert Exposure(h1) + p2 * q2 == Exposure(h2) + p1 * q1;
  }

  /** Deposit 1,000,000; buy 10 of 600519 at 1,800; sell them at 1,900. */
  lemma TradingScenario()
    ensures var b0 := DepositTo(Book(0.0, map[], []), 1000000.0);
            var r1 := Execute(b0, "600519", "A", "buy", 10.0, Some(1800.0), None);
            r1.Ok? && r1.value.cash == 982000.0
            && r1.value.positions == map["600519" := Holding("A", 10.0, 1800.0)]
            && |r1.value.orders| == 1 &&
            var r2 := Execute(r1.value, "600519", "A", "sell", 10.0, Some(1900.0), None);
            r2.Ok? && r2.value.cash == 1001000.0 && r2.value.positions == map[]
            && |r2.value.orders| == 2
  {
    assert Lower("buy") == "buy";
    assert Lower("sell") == "sell";
    assert Upper("A") == "A";
  }

  /** Settlement of an order that passes its checks, written out (used by `PlaceOrder`). */
  lemma SettledBuy(b: Book, symbol: string, market: string, quantity: real, p: real)
    requires p * quantity <= b.cash
    ensures Settle(b, symbol, market, Buy, quantity, p)
            == Ok(Book(b.cash - p * quantity,
                       b.positions[symbol := BuyInto(Lookup(b.positions, symbol), market, quantity, p)],
                       b.orders + [Order(symbol, Upper(market), Buy, quantity, p)]))
  {
  }

  lemma SettledSell(b: Book, symbol: string, market: string, quantity: real, p: real)
    requires symbol in b.positions && b.positions[symbol].quantity >= quantity
    ensures var held := b.positions[symbol];
            Settle(b, symbol, market, Sell, quantity, p)
            == Ok(Book(b.cash + p * quantity,
                       if held.quantity - quantity == 0.0 then b.positions - {symbol}
                       else b.positions[symbol := held.(quantity := held.quantity - quantity)],
                       b.orders + [Order(symbol, Upper(market), Sell, quantity, p)]))
  {
  }

  lemma BuyIntoExisting(h: Holding, market: string, q: real, p: real)
    ensures BuyInto(Some(h), market, q, p)
            == Holding(h.market, h.quantity + q,
                       if h.quantity + q > 0.0 then (h.quantity * h.avgPrice + p * q) / (h.quantity + q) else p)
  {
    var r := BuyInto(Some(h), market, q, p);
    var newQ := h.quantity + q;
    assert r.avgPrice == if newQ > 0.0 then (h.quantity * h.avgPrice + p * q) / newQ else p;
  }

  // ---------------------------------------------------------------- the broker

  /** `PaperBroker`: the account's collections as fields, updated in place. */
  class PaperBroker {
    var cash: real
    var positions: map<string, Holding>
    var orders: seq<Order>

    function Snapshot(): Book
      reads this
    {
      Book(cash, positions, orders)
    }

    /** `__init__` and `_init_db` over a database that already holds the account document
        `account` (absent on first use), the holdings `held` and the journal `journal`. */
    constructor (account: Option<real>, held: map<string, Holding>, journal: seq<Order>)
      ensures cash == StoredBalance(InitAccount(account))
      ensures positions == held && orders == journal
    {
      cash := StoredBalance(InitAccount(account));
      positions := held;
      orders := journal;
    }

    method GetBalance() returns (balance: real)
      ensures balance == cash
    {
      balance := cash;
    }

    method Deposit(amount: real)
      modifies this
      ensures Snapshot() == DepositTo(old(Snapshot()), amount)
    {
      cash := cash + amount;
    }

    method Withdraw(amount: real) returns (r: Outcome<Error>)
      modifies this
      ensures var w := WithdrawFrom(old(Snapshot()), amount);
                (r.Pass? <==> w.Ok?)
                && (w.Ok? ==> Snapshot() == w.value)
                && (w.Err? ==> r == Fail(w.error) && Snapshot() == old(Snapshot()))
    {
      var balance := GetBalance();
      if amount > balance {
        return Fail(InsufficientCash);
      }
      cash := cash - amount;
      r := Pass;
    }

    /** `get_positions`: one row per holding, each symbol once. */
    method GetPositions() returns (rows: seq<PositionRow>)
      ensures |rows| == |positions|
      ensures forall i :: 0 <= i < |rows| ==>
                rows[i].symbol in positions
                && positions[rows[i].symbol] == Holding(rows[i].market, rows[i].quantity, rows[i].avgPrice)
      ensures forall i, j :: 0 <= i < j < |rows| ==> rows[i].symbol != rows[j].symbol
      ensures forall s :: s in positions ==> exists i :: 0 <= i < |rows| && rows[i].symbol == s
    {
      rows := [];
      var pending := positions.Keys;
      while pending != {}
        invariant pending <= positions.Keys
        invariant |rows| + |pending| == |positions|
        invariant forall i :: 0 <= i < |rows| ==>
                    rows[i].symbol in positions && rows[i].symbol !in pending
                    && positions[rows[i].symbol] == Holding(rows[i].market, rows[i].quantity, rows[i].avgPrice)
        invariant forall i, j :: 0 <= i < j < |rows| ==> rows[i].symbol != rows[j].symbol
        invariant forall s :: s in positions && s !in pending ==> exists i :: 0 <= i < |rows| && rows[i].symbol == s
        decreases |pending|
      {
        var s :| s in pending;
        var h := positions[s];
        ghost var before := rows;
        rows := rows + [PositionRow(s, h.market, h.quantity, h.avgPrice)];
        pending := pending - {s};
        assert forall i :: 0 <= i < |before| ==> rows[i] == before[i];
        assert rows[|before|].symbol == s;
      }
    }

    /** `get_orders`: the journal, newest first, each record with its journal position. */
    method GetOrders() returns (rows: seq<OrderRow>)
      ensures |rows| == |orders|
      ensures forall i :: 0 <= i < |rows| ==> rows[i] == OrderRow(|orders| - 1 - i, orders[|orders| - 1 - i])
    {
      rows := [];
      var k := |orders|;
      while k > 0
        invariant 0 <= k <= |orders|
        invariant |rows| == |orders| - k
        invariant forall i :: 0 <= i < |rows| ==> rows[i] == OrderRow(|orders| - 1 - i, orders[|orders| - 1 - i])
      {
        k := k - 1;
        rows := rows + [OrderRow(k, orders[k])];
      }
    }

    /** `place_order`, with `quote` standing for the price the quote provider returns for
        the symbol (consulted only when no explicit price is given). On success the
        record appended to the journal is returned. */
    method PlaceOrder(symbol: string, market: string, side: string, quantity: real,
                      price: Option<real>, quote: Option<real>) returns (r: Result<Order, Error>)
      modifies this
      ensures var e := Execute(old(Snapshot()), symbol, market, side, quantity, price, quote);
                (r.Ok? <==> e.Ok?)
                && (e.Ok? ==> Snapshot() == e.value && orders != [] && r.value == orders[|orders| - 1])
                && (e.Err? ==> r == Err(e.error) && Snapshot() == old(Snapshot()))
    {
      var s := Lower(side);
      if s != "buy" && s != "sell" {
        return Err(InvalidSide);
      }
      var p: real;
      if price.None? {
        if quote.None? || quote.value == 0.0 {
          return Err(PriceUnavailable);
        }
        p := quote.value;
      } else {
        p := price.value;
      }
      var sd := if s == "buy" then Buy else Sell;
      assert ParseSide(side) == Some(sd) && ResolvePrice(price, quote) == Ok(p);
      r := SettleOrder(symbol, market, sd, quantity, p);
    }

    /** The settlement part of `place_order`: check cash or holding, then move cash,
        update the holding, and append the journal record. */
    method SettleOrder(symbol: string, market: string, side: Side, quantity: real, p: real)
      returns (r: Result<Order, Error>)
      modifies this
      ensures var e := Settle(old(Snapshot()), symbol, market, side, quantity, p);
                (r.Ok? <==> e.Ok?)
                && (e.Ok? ==> Snapshot() == e.value && r == Ok(Order(symbol, Upper(market), side, quantity, p)))
                && (e.Err? ==> r == Err(e.error) && Snapshot() == old(Snapshot()))
    {
      ghost var before := Snapshot();
      var cost := p * quantity;
      if side == Buy {
        var balance := GetBalance();
        if cost > balance {
          return Err(InsufficientCash);
        }
        SettledBuy(before, symbol, market, quantity, p);
        cash := cash - cost;
        if symbol in positions {
          var pos := positions[symbol];
          var newQ := pos.quantity + quantity;
          var newAvg := if newQ > 0.0 then (pos.quantity * pos.avgPrice + cost) / newQ else p;
          BuyIntoExisting(pos, market, quantity, p);
          positions := positions[symbol := Holding(pos.market, newQ, newAvg)];
        } else {
          positions := positions[symbol := Holding(Upper(market), quantity, p)];
        }
      } else {
        if symbol !in positions {
          return Err(InsufficientPosition);
        }
        var heldQ := positions[symbol].quantity;
        if heldQ < quantity {
          return Err(InsufficientPosition);
        }
        SettledSell(before, symbol, market, quantity, p);
        var newQ := heldQ - quantity;
        var proceeds := p * quantity;
        cash := cash + proceeds;
        if newQ == 0.0 {
          positions := positions - {symbol};
        } else {
          positions := positions[symbol := positions[symbol].(quantity := newQ)];
        }
      }
      var order := Order(symbol, Upper(market), side, quantity, p);
      orders := orders + [order];
      r := Ok(order);
    }
  }
}
