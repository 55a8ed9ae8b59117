/**
 * The client-side trade engine (the non-coroutine part of
 * TradingViewModel.kt and the records of TradingModels.kt): the book view and
 * local histories fed by incoming snapshots, at most one pending order and
 * one open trade, the balance, and the grow-only history of closed trades.
 * Wall-clock readings are passed in as `now`.
 */
module Trading {
  import opened Wrappers
  import opened Models
  import opened Simulator
  import QuoteStream

  /** A wall-clock reading; only passed along and stored. */
  type Instant = int

  /** A pending order: side, limit price, lots and auto-close threshold. */
  datatype UserOrder = UserOrder(side: TradeSide, price: int, lots: int, autoCloseThreshold: int)

  /** An open trade; `openIndex` is the size of the mid history when it opened. */
  datatype Trade = Trade(
    side: TradeSide,
    openPrice: int,
    lots: int,
    openTime: Instant,
    autoCloseThreshold: int,
    openIndex: int)

  /** A closed trade with its signed result. */
  datatype TradeRecord = TradeRecord(
    side: TradeSide,
    openPrice: int,
    closePrice: int,
    lots: int,
    openTime: Instant,
    closeTime: Instant,
    result: int)

  /** The cap of every local history (`HISTORY_LIMIT`). */
  const HistoryLimit: nat := 100
  /** The balance a new engine starts with. */
  const InitialBalance := 1000

  function Abs(x: int): int
  {
    if x < 0 then -x else x
  }

  /** `list + value`, keeping only the last `limit` elements (`appendWithLimit`). */
  function AppendWithLimit<T>(list: seq<T>, value: T, limit: nat): (r: seq<T>)
    ensures |r| == if |list| + 1 <= limit then |list| + 1 else limit
    ensures limit > 0 ==> r[|r| - 1] == value
  {
    var updated := list + [value];
    if |updated| > limit then updated[|updated| - limit..] else updated
  }

  /** The result is the newest min(|list| + 1, limit) elements of `list + [value]`, in order. */
  lemma {:induction false} AppendWithLimitKeepsNewest<T>(list: seq<T>, value: T, limit: nat)
    ensures var k := if |list| + 1 <= limit then |list| + 1 else limit;
      AppendWithLimit(list, value, limit) == (list + [value])[|list| + 1 - k..]
  {
  }

  /** Below the cap nothing is evicted; at the cap exactly the oldest element is. */
  lemma {:induction false} AppendWithLimitEvictsOldest<T>(list: seq<T>, value: T, limit: nat)
    requires |list| <= limit
    ensures |list| < limit ==> AppendWithLimit(list, value, limit) == list + [value]
    ensures 0 < |list| == limit ==> AppendWithLimit(list, value, limit) == list[1..] + [value]
  {
    if 0 < |list| == limit {
      assert (list + [value])[1..] == list[1..] + [value];
    }
  }

  /** Appends the last of `incoming` to `history`, when there is one (`lastOrNull()?.let`). */
  function AppendLatest(history: seq<int>, incoming: seq<int>): (r: seq<int>)
    ensures incoming == [] ==> r == history
    ensures incoming != [] ==> |r| > 0 && r[|r| - 1] == incoming[|incoming| - 1]
    ensures |history| <= HistoryLimit ==> |r| <= HistoryLimit
  {
    if incoming == [] then history
    else AppendWithLimit(history, incoming[|incoming| - 1], HistoryLimit)
  }

  /** +1 for a buy, -1 for a sell. */
  function Direction(side: TradeSide): int
  {
    match side
    case Buy => 1
    case Sell => -1
  }

  /** The signed profit of `trade` if closed at `mid` (`computeProfit`). */
  function ComputeProfit(trade: Trade, mid: int): (pl: int)
    ensures pl == Direction(trade.side) * ((mid - trade.openPrice) * trade.lots)
  {
    match trade.side
    case Buy => (mid - trade.openPrice) * trade.lots
    case Sell => (trade.openPrice - mid) * trade.lots
  }

  /** At equal prices and lots a sell earns exactly what a buy loses. */
  lemma ProfitSidesOpposite(trade: Trade, mid: int)
    ensures ComputeProfit(trade.(side := Sell), mid) == -ComputeProfit(trade.(side := Buy), mid)
  {
  }

  /** No level after the i-th repeats its price. */
  predicate LastAtPrice(levels: seq<OrderData>, i: int)
    requires 0 <= i < |levels|
  {
    forall j :: i < j < |levels| ==> levels[j].price != levels[i].price
  }

  /** A price-to-quantity map of the levels; a later level wins on a repeated price (`associate`). */
  function Associate(levels: seq<OrderData>): (m: map<int, int>)
    ensures m.Keys == set e | e in levels :: e.price
    ensures forall p :: p in m ==> OrderData(p, m[p]) in levels
    ensures forall i :: 0 <= i < |levels| && LastAtPrice(levels, i) ==> m[levels[i].price] == levels[i].qty
  {
    if levels == [] then map[]
    else
      var init := levels[..|levels| - 1];
      var last := levels[|levels| - 1];
      assert levels == init + [last];
      var m := Associate(init)[last.price := last.qty];
      assert forall i :: 0 <= i < |init| && LastAtPrice(levels, i) ==> LastAtPrice(init, i) && levels[i] == init[i];
      m
  }

  /**
   * The book view built from a snapshot side holds exactly the simulator's
   * populated cells, each with its quantity.
   */
  lemma {:induction false} BookViewOfListing(levels: seq<OrderData>, cells: seq<int>, lo: int, hi: int)
    requires 0 <= lo && hi <= |cells|
    requires Listed(levels, cells, lo, hi)
    ensures forall p :: p in Associate(levels) ==> lo <= p < hi && cells[p] > 0 && Associate(levels)[p] == cells[p]
    ensures forall p :: lo <= p < hi && cells[p] > 0 ==> p in Associate(levels)
  {
    var m := Associate(levels);
    forall p | p in m
      ensures lo <= p < hi && cells[p] > 0 && m[p] == cells[p]
    {
      assert OrderData(p, m[p]) in levels;
      var i :| 0 <= i < |levels| && levels[i] == OrderData(p, m[p]);
    }
    forall p | lo <= p < hi && cells[p] > 0
      ensures p in m
    {
      var i :| 0 <= i < |levels| && levels[i].price == p;
      assert levels[i] in levels;
    }
  }

  /**
   * Whether a pending order fills against the book view: a buy when some
   * sell level is at or below its price, a sell when some buy level is at or
   * above it.
   */
  predicate Crossed(order: UserOrder, buyOrders: map<int, int>, sellOrders: map<int, int>)
    ensures order.side == Buy && order.price in sellOrders ==> Crossed(order, buyOrders, sellOrders)
    ensures order.side == Sell && order.price in buyOrders ==> Crossed(order, buyOrders, sellOrders)
    ensures Crossed(order, buyOrders, sellOrders) && order.side == Buy ==> sellOrders != map[]
    ensures Crossed(order, buyOrders, sellOrders) && order.side == Sell ==> buyOrders != map[]
  {
    match order.side
    case Buy => exists p :: p in sellOrders && p <= order.price
    case Sell => exists p :: p in buyOrders && p >= order.price
  }

  /**
   * A crossed buy stays crossed at any higher limit and a crossed sell at any
   * lower one; an empty opposite side crosses nothing.
   */
  lemma CrossedMonotone(order: UserOrder, price: int, buyOrders: map<int, int>, sellOrders: map<int, int>)
    requires Crossed(order, buyOrders, sellOrders)
    ensures order.side == Buy && price >= order.price ==> Crossed(order.(price := price), buyOrders, sellOrders)
    ensures order.side == Sell && price <= order.price ==> Crossed(order.(price := price), buyOrders, sellOrders)
    ensures order.side == Buy ==> sellOrders != map[]
    ensures order.side == Sell ==> buyOrders != map[]
  {
    match order.side
    case Buy =>
      var p :| p in sellOrders && p <= order.price;
      assert p in sellOrders;
    case Sell =>
      var p :| p in buyOrders && p >= order.price;
      assert p in buyOrders;
  }

  /** The trade a filled order opens: at the order's own price, lots and threshold. */
  function Opened(order: UserOrder, now: Instant, openIndex: int): (t: Trade)
    ensures ComputeProfit(t, order.price) == 0
    ensures t.side == order.side && t.lots == order.lots && t.autoCloseThreshold == order.autoCloseThreshold
    ensures t.openTime == now && t.openIndex == openIndex
  {
    Trade(order.side, order.price, order.lots, now, order.autoCloseThreshold, openIndex)
  }

  /** Everything the engine holds that the model covers, as one value. */
  datatype TradingState = TradingState(
    useLocal: bool,
    buyOrders: map<int, int>,
    sellOrders: map<int, int>,
    bestBuyHistory: seq<int>,
    bestSellHistory: seq<int>,
    midHistory: seq<int>,
    latestMid: Option<int>,
    historyTimestamps: seq<Instant>,
    selectedAggressiveness: int,
    userBalance: int,
    userPendingOrder: Option<UserOrder>,
    openTrade: Option<Trade>,
    tradeHistory: seq<TradeRecord>)

  /** Every local history is within the cap. */
  predicate Capped(v: TradingState)
  {
    && |v.bestBuyHistory| <= HistoryLimit && |v.bestSellHistory| <= HistoryLimit
    && |v.midHistory| <= HistoryLimit && |v.historyTimestamps| <= HistoryLimit
  }

  // ----- The steps of one message, in order -------------------------------

  /** Step 1: the book view becomes the message's levels. */
  function ReplaceBook(v: TradingState, message: QuoteMessage): (t: TradingState)
    ensures t.buyOrders.Keys == set e | e in message.buy :: e.price
    ensures t.sellOrders.Keys == set e | e in message.sell :: e.price
    ensures t.(buyOrders := v.buyOrders, sellOrders := v.sellOrders) == v
  {
    v.(buyOrders := Associate(message.buy), sellOrders := Associate(message.sell))
  }

  /** Step 2: the latest of each incoming history is appended; a timestamp is appended on every message. */
  function AppendHistories(v: TradingState, message: QuoteMessage, now: Instant): (t: TradingState)
    ensures Capped(v) ==> Capped(t)
    ensures |t.historyTimestamps| > 0 && t.historyTimestamps[|t.historyTimestamps| - 1] == now
    ensures t.(bestBuyHistory := v.bestBuyHistory, bestSellHistory := v.bestSellHistory, midHistory := v.midHistory,
               latestMid := v.latestMid, historyTimestamps := v.historyTimestamps) == v
  {
    var h := message.history;
    v.(bestBuyHistory := AppendLatest(v.bestBuyHistory, h.bestBuy),
       bestSellHistory := AppendLatest(v.bestSellHistory, h.bestSell),
       midHistory := AppendLatest(v.midHistory, h.mid),
       latestMid := if h.mid == [] then v.latestMid else Some(h.mid[|h.mid| - 1]),
       historyTimestamps := AppendWithLimit(v.historyTimestamps, now, HistoryLimit))
  }

  /** Step 3: a crossed pending order becomes the open trade, replacing any open one. */
  function FillPending(v: TradingState, now: Instant): (t: TradingState)
    ensures t == v || (v.userPendingOrder.Some? && t.userPendingOrder.None? && t.openTrade.Some?)
    ensures t.(userPendingOrder := v.userPendingOrder, openTrade := v.openTrade) == v
  {
    match v.userPendingOrder
    case Some(order) =>
      if Crossed(order, v.buyOrders, v.sellOrders) then
        v.(openTrade := Some(Opened(order, now, |v.midHistory|)), userPendingOrder := None)
      else v
    case None => v
  }

  /** Closing `trade` with `result` (`closeTrade`): one record is appended and no trade stays open. */
  function Close(v: TradingState, trade: Trade, result: int, now: Instant): (t: TradingState)
    ensures |t.tradeHistory| == |v.tradeHistory| + 1 && t.tradeHistory[..|v.tradeHistory|] == v.tradeHistory
    ensures t.tradeHistory[|v.tradeHistory|].result == result
    ensures t.tradeHistory[|v.tradeHistory|].closePrice == if v.latestMid.Some? then v.latestMid.value else trade.openPrice
    ensures t.openTrade.None?
    ensures t.(tradeHistory := v.tradeHistory, openTrade := v.openTrade) == v
  {
    var closePrice := match v.latestMid case Some(mid) => mid case None => trade.openPrice;
    var record := TradeRecord(trade.side, trade.openPrice, closePrice, trade.lots, trade.openTime, now, result);
    v.(tradeHistory := v.tradeHistory + [record], openTrade := None)
  }

  /** Step 4: an open trade whose profit at the latest mid reaches its threshold is settled. */
  function AutoClose(v: TradingState, now: Instant): (t: TradingState)
    ensures t == v || (v.openTrade.Some? && t.openTrade.None? && |t.tradeHistory| == |v.tradeHistory| + 1)
    ensures t.(openTrade := v.openTrade, userBalance := v.userBalance, tradeHistory := v.tradeHistory) == v
  {
    if v.openTrade.Some? && v.latestMid.Some? then
      var pl := ComputeProfit(v.openTrade.value, v.latestMid.value);
      if Abs(pl) >= v.openTrade.value.autoCloseThreshold then
        Close(v.(userBalance := v.userBalance + pl), v.openTrade.value, pl, now)
      else v
    else v
  }

  /** One incoming snapshot (`handleMessage`). */
  function OnMessage(v: TradingState, message: QuoteMessage, now: Instant): (t: TradingState)
    ensures Capped(v) ==> Capped(t)
    ensures t.buyOrders.Keys == set e | e in message.buy :: e.price
    ensures t.sellOrders.Keys == set e | e in message.sell :: e.price
    ensures t.useLocal == v.useLocal && t.selectedAggressiveness == v.selectedAggressiveness
  {
    AutoClose(FillPending(AppendHistories(ReplaceBook(v, message), message, now), now), now)
  }

  /** The manual cancel-or-close (`cancelOrderOrCloseTradeEarly`). */
  function CancelOrClose(v: TradingState, now: Instant): (t: TradingState)
    ensures t.userPendingOrder.None? && t.userBalance == v.userBalance
    ensures |v.tradeHistory| <= |t.tradeHistory| <= |v.tradeHistory| + 1
  {
    var w := v.(userPendingOrder := None);
    if w.openTrade.Some? && w.latestMid.Some? then
      Close(w, w.openTrade.value, ComputeProfit(w.openTrade.value, w.latestMid.value), now)
    else w
  }

  // ----- Properties of the engine's transitions ---------------------------

  /**
   * A message replaces the book view, extends each local history (keeping
   * its newest entries within the cap) by the last value of the message's
   * list only when that list is non-empty, takes the last incoming mid as
   * the latest mid, and always appends `now` to the timestamps.
   */
  lemma OnMessageView(v: TradingState, message: QuoteMessage, now: Instant)
    requires Capped(v)
    ensures var t := OnMessage(v, message, now);
      var h := message.history;
      && t.buyOrders == Associate(message.buy) && t.sellOrders == Associate(message.sell)
      && (h.bestBuy == [] ==> t.bestBuyHistory == v.bestBuyHistory)
      && (h.bestBuy != [] ==>
            t.bestBuyHistory == AppendWithLimit(v.bestBuyHistory, h.bestBuy[|h.bestBuy| - 1], HistoryLimit))
      && (h.bestSell == [] ==> t.bestSellHistory == v.bestSellHistory)
      && (h.bestSell != [] ==>
            t.bestSellHistory == AppendWithLimit(v.bestSellHistory, h.bestSell[|h.bestSell| - 1], HistoryLimit))
      && (h.mid == [] ==> t.midHistory == v.midHistory && t.latestMid == v.latestMid)
      && (h.mid != [] ==>
            && t.latestMid == Some(h.mid[|h.mid| - 1])
            && t.midHistory == AppendWithLimit(v.midHistory, h.mid[|h.mid| - 1], HistoryLimit))
      && t.historyTimestamps == AppendWithLimit(v.historyTimestamps, now, HistoryLimit)
      && Capped(t)
      && t.useLocal == v.useLocal && t.selectedAggressiveness == v.selectedAggressiveness
  {
    TradeStepsKeepView(AppendHistories(ReplaceBook(v, message), message, now), now);
  }

  /** The fill and auto-close steps touch only the order, the trade, the balance and the records. */
  lemma TradeStepsKeepView(u: TradingState, now: Instant)
    ensures var t := AutoClose(FillPending(u, now), now);
      t.(userPendingOrder := u.userPendingOrder, openTrade := u.openTrade,
         userBalance := u.userBalance, tradeHistory := u.tradeHistory) == u
  {
  }

  /**
   * The fill rule: a pending order fills exactly when it is crossed by the
   * new book view; the open trade then takes the order's price, lots and
   * threshold, its index is the mid history's size after this message's
   * append, and the order is cleared (an earlier open trade is overwritten).
   * An order that does not fill stays pending.
   */
  lemma OnMessageFill(v: TradingState, message: QuoteMessage, now: Instant)
    requires v.userPendingOrder.Some?
    ensures var order := v.userPendingOrder.value;
      var u := AppendHistories(ReplaceBook(v, message), message, now);
      var f := FillPending(u, now);
      var filled := Crossed(order, Associate(message.buy), Associate(message.sell));
      && (filled ==> f.openTrade == Some(Trade(order.side, order.price, order.lots, now,
                                                order.autoCloseThreshold, |u.midHistory|))
                     && f.userPendingOrder.None?)
      && (!filled ==> f == u && OnMessage(v, message, now).userPendingOrder == Some(order))
      && OnMessage(v, message, now) == AutoClose(f, now)
  {
  }

  /**
   * Auto-close: with an open trade and a known latest mid, a profit whose
   * magnitude reaches the threshold raises the balance by exactly that
   * profit, appends one record with that result closed at the latest mid,
   * and leaves no open trade; otherwise balance, records and open trade stay.
   */
  lemma AutoCloseSettles(v: TradingState, now: Instant)
    ensures var t := AutoClose(v, now);
      if v.openTrade.Some? && v.latestMid.Some?
         && Abs(ComputeProfit(v.openTrade.value, v.latestMid.value)) >= v.openTrade.value.autoCloseThreshold
      then
        var trade, mid := v.openTrade.value, v.latestMid.value;
        var pl := ComputeProfit(trade, mid);
        && t.userBalance == v.userBalance + pl
        && t.tradeHistory == v.tradeHistory
             + [TradeRecord(trade.side, trade.openPrice, mid, trade.lots, trade.openTime, now, pl)]
        && t.openTrade.None?
        && t.userPendingOrder == v.userPendingOrder
      else
        t == v
  {
  }

  /**
   * Over a whole message the trade history only grows, by at most one
   * record, and the balance moves by exactly the result of the record
   * appended (by nothing when none is).
   */
  lemma OnMessageBalance(v: TradingState, message: QuoteMessage, now: Instant)
    ensures var t := OnMessage(v, message, now);
      && |v.tradeHistory| <= |t.tradeHistory| <= |v.tradeHistory| + 1
      && t.tradeHistory[..|v.tradeHistory|] == v.tradeHistory
      && t.userBalance - v.userBalance
           == (if |t.tradeHistory| > |v.tradeHistory| then t.tradeHistory[|v.tradeHistory|].result else 0)
      && (|t.tradeHistory| > |v.tradeHistory| ==>
            Abs(t.tradeHistory[|v.tradeHistory|].result) >= AutoCloseThresholdOf(FillPending(AppendHistories(ReplaceBook(v, message), message, now), now)))
  {
    var f := FillPending(AppendHistories(ReplaceBook(v, message), message, now), now);
    AutoCloseSettles(f, now);
    var t := OnMessage(v, message, now);
    if |t.tradeHistory| > |v.tradeHistory| {
      assert t.tradeHistory[..|v.tradeHistory|] == v.tradeHistory;
    } else {
      assert t.tradeHistory[..|v.tradeHistory|] == t.tradeHistory;
    }
  }

  /** The threshold of the open trade, when there is one. */
  function AutoCloseThresholdOf(v: TradingState): int
  {
    match v.openTrade
    case Some(trade) => trade.autoCloseThreshold
    case None => 0
  }

  /**
   * The worked example: a buy opened at 40 with 2 lots and threshold 10,
   * fed a snapshot whose last mid is 46, earns 12, which reaches the
   * threshold: the balance rises by 12 and one record with result 12 is
   * appended.
   */
  lemma AutoCloseExample(v: TradingState, message: QuoteMessage, now: Instant, openTime: Instant, openIndex: int)
    requires v.userPendingOrder.None?
    requires v.openTrade == Some(Trade(Buy, 40, 2, openTime, 10, openIndex))
    requires message.history.mid != [] && message.history.mid[|message.history.mid| - 1] == 46
    ensures var t := OnMessage(v, message, now);
      && t.userBalance == v.userBalance + 12
      && t.tradeHistory == v.tradeHistory + [TradeRecord(Buy, 40, 46, 2, openTime, now, 12)]
      && t.openTrade.None?
  {
    var u := AppendHistories(ReplaceBook(v, message), message, now);
    assert FillPending(u, now) == u;
    assert ComputeProfit(Trade(Buy, 40, 2, openTime, 10, openIndex), 46) == 12;
  }

  /**
   * Cancel-or-close always clears the pending order; with an open trade and
   * a known mid it closes the trade at that mid with the computed profit and
   * leaves the balance alone; with nothing pending and nothing open it
   * changes nothing.
   */
  lemma CancelOrCloseEffects(v: TradingState, now: Instant)
    ensures var t := CancelOrClose(v, now);
      && t.userPendingOrder.None?
      && t.userBalance == v.userBalance
      && (v.openTrade.Some? && v.latestMid.Some? ==>
            var trade, mid := v.openTrade.value, v.latestMid.value;
            && t.tradeHistory == v.tradeHistory
                 + [TradeRecord(trade.side, trade.openPrice, mid, trade.lots, trade.openTime, now,
                                ComputeProfit(trade, mid))]
            && t.openTrade.None?)
      && (!(v.openTrade.Some? && v.latestMid.Some?) ==>
            t.tradeHistory == v.tradeHistory && t.openTrade == v.openTrade)
      && (v.userPendingOrder.None? && v.openTrade.None? ==> t == v)
  {
  }

  // ----- The engine object ------------------------------------------------

  class TradingViewModel {
    var useLocal: bool
    var buyOrders: map<int, int>
    var sellOrders: map<int, int>
    var bestBuyHistory: seq<int>
    var bestSellHistory: seq<int>
    var midHistory: seq<int>
    var latestMid: Option<int>
    var historyTimestamps: seq<Instant>
    var selectedAggressiveness: int
    var userBalance: int
    var userPendingOrder: Option<UserOrder>
    var openTrade: Option<Trade>
    var tradeHistory: seq<TradeRecord>
    /** The local simulator used when `useLocal` is set. */
    const simulator: QuoteSimulator

    /** The engine's state as one value. */
    ghost function State(): TradingState
      reads this
    {
      TradingState(useLocal, buyOrders, sellOrders, bestBuyHistory, bestSellHistory, midHistory, latestMid,
                   historyTimestamps, selectedAggressiveness, userBalance, userPendingOrder, openTrade, tradeHistory)
    }

    /** The local histories stay within the cap (the simulator keeps its own `Valid`). */
    ghost predicate Valid()
      reads this
    {
      Capped(State())
    }

    /** A new engine: remote feed, empty views, CALM selected, balance 1000, nothing pending or open. */
    constructor ()
      ensures Valid() && simulator.Valid()
      ensures fresh(simulator) && fresh(simulator.buyOrders) && fresh(simulator.sellOrders)
      ensures State() == TradingState(false, map[], map[], [], [], [], None, [], Level(Calm), InitialBalance,
                                      None, None, [])
    {
      useLocal := false;
      buyOrders := map[];
      sellOrders := map[];
      bestBuyHistory := [];
      bestSellHistory := [];
      midHistory := [];
      latestMid := None;
      historyTimestamps := [];
      selectedAggressiveness := Level(Calm);
      userBalance := InitialBalance;
      userPendingOrder := None;
      openTrade := None;
      tradeHistory := [];
      simulator := new QuoteSimulator(100, 100);
    }

    /** Replaces any pending order by `order`. */
    method PlaceOrder(order: UserOrder)
      requires Valid()
      modifies this
      ensures Valid() && State() == old(State()).(userPendingOrder := Some(order))
    {
      userPendingOrder := Some(order);
    }

    /** Sets the open trade directly. */
    method OpenTrade(trade: Trade)
      requires Valid()
      modifies this
      ensures Valid() && State() == old(State()).(openTrade := Some(trade))
    {
      openTrade := Some(trade);
    }

    /** Sets the balance directly. */
    method UpdateUserBalance(newBalance: int)
      requires Valid()
      modifies this
      ensures Valid() && State() == old(State()).(userBalance := newBalance)
    {
      userBalance := newBalance;
    }

    /** Records `trade` as closed with `result` at the latest mid (or its open price) and clears the open trade. */
    method CloseTrade(trade: Trade, result: int, now: Instant)
      requires Valid()
      modifies this
      ensures Valid() && State() == Close(old(State()), trade, result, now)
    {
      var closePrice := if latestMid.Some? then latestMid.value else trade.openPrice;
      var record := TradeRecord(trade.side, trade.openPrice, closePrice, trade.lots, trade.openTime, now, result);
      tradeHistory := tradeHistory + [record];
      openTrade := None;
    }

    /** Clears the pending order, then closes the open trade at the latest mid if both exist. */
    method CancelOrderOrCloseTradeEarly(now: Instant)
      requires Valid()
      modifies this
      ensures Valid() && State() == CancelOrClose(old(State()), now)
    {
      userPendingOrder := None;
      if openTrade.Some? {
        var trade := openTrade.value;
        if latestMid.None? {
          return;
        }
        var result := ComputeProfit(trade, latestMid.value);
        CloseTrade(trade, result, now);
      }
    }

    /** Applies one incoming snapshot: book, histories, fill check, auto-close check. */
    method HandleMessage(message: QuoteMessage, now: Instant)
      requires Valid()
      modifies this
      ensures Valid() && State() == OnMessage(old(State()), message, now)
    {
      ReceiveSnapshot(message, now);
      FillIfCrossed(now);
      AutoCloseIfReached(now);
    }

    /** The first two steps of a message: the book view and the local histories. */
    method ReceiveSnapshot(message: QuoteMessage, now: Instant)
      requires Valid()
      modifies this
      ensures Valid()
      ensures State() == AppendHistories(ReplaceBook(old(State()), message), message, now)
    {
      buyOrders := Associate(message.buy);
      sellOrders := Associate(message.sell);
      AppendLatestHistories(message.history, now);
    }

    /** Appends the latest incoming values and the arrival time to the local histories. */
    method AppendLatestHistories(history: HistoryData, now: Instant)
      requires Valid()
      modifies this
      ensures Valid()
      ensures State() == AppendHistories(old(State()), QuoteMessage(history := history), now)
    {
      bestBuyHistory := AppendLatest(bestBuyHistory, history.bestBuy);
      bestSellHistory := AppendLatest(bestSellHistory, history.bestSell);
      if history.mid != [] {
        midHistory := AppendLatest(midHistory, history.mid);
        latestMid := Some(history.mid[|history.mid| - 1]);
      }
      historyTimestamps := AppendWithLimit(historyTimestamps, now, HistoryLimit);
    }

    /** Opens the pending order as a trade when the book view crosses it. */
    method FillIfCrossed(now: Instant)
      requires Valid()
      modifies this
      ensures Valid() && State() == FillPending(old(State()), now)
    {
      if userPendingOrder.Some? {
        var pending := userPendingOrder.value;
        if Crossed(pending, buyOrders, sellOrders) {
          openTrade := Some(Opened(pending, now, |midHistory|));
          userPendingOrder := None;
        }
      }
    }

    /** Settles the open trade when its profit at the latest mid reaches its threshold. */
    method AutoCloseIfReached(now: Instant)
      requires Valid()
      modifies this
      ensures Valid() && State() == AutoClose(old(State()), now)
    {
      if openTrade.Some? && latestMid.Some? {
        var trade := openTrade.value;
        var pl := ComputeProfit(trade, latestMid.value);
        if Abs(pl) >= trade.autoCloseThreshold {
          userBalance := userBalance + pl;
          CloseTrade(trade, pl, now);
        }
      }
    }

    /**
     * The local branch of `sendCommand`: with the local feed the command is
     * applied to the local simulator as a server session would apply it, and
     * a given mode is also stored raw as the selected aggressiveness.  With
     * the remote feed the command is sent to the server, which is not part of
     * this model, so nothing here changes.
     */
    method SendCommand(command: RemoteCommand)
      requires Valid() && simulator.Valid()
      modifies this, simulator, simulator.buyOrders, simulator.sellOrders
      ensures Valid() && simulator.Valid()
      ensures useLocal ==> simulator.State() == QuoteStream.Dispatch(old(simulator.State()), command)
      ensures useLocal && command.command == "setAggressiveness" && command.mode.Some? ==>
        State() == old(State()).(selectedAggressiveness := command.mode.value)
      ensures !(useLocal && command.command == "setAggressiveness" && command.mode.Some?) ==>
        State() == old(State())
      ensures !useLocal ==> simulator.State() == old(simulator.State())
    {
      if useLocal {
        match command.command
        case "setAggressiveness" =>
          if command.mode.Some? {
            selectedAggressiveness := command.mode.value;
            simulator.SetAggressiveness(FromLevel(command.mode.value));
          }
        case "startTrading" => simulator.StartTrading();
        case "stopTrading" => simulator.StopTrading();
        case _ =>
      }
    }
  }
}
