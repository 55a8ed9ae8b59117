/**
 * The synthetic order-book simulator (QuoteSimulator.kt): two fixed books of
 * price cells, a buy block and a sell block that move every tick within
 * clamped bounds, and three parallel bounded histories of best buy, best sell
 * and mid.  The random draws of a tick are passed in as a `Draws` value.
 */
module Simulator {
  import opened Wrappers
  import opened Models

  /** Number of consecutive price cells each side populates per tick. */
  const Depth := 10
  /** Lowest price cell the simulator populates or scans. */
  const MinPrice := 10
  /** Highest best-sell price for which a mid is recorded. */
  const MaxBestSell := 90
  /** Largest quantity a populated cell can hold (`nextInt(11)`). */
  const MaxQty := 10
  /** Highest price the buy block may start at, before the spread is taken off. */
  const MaxBuyEnd := 80
  /** The best-sell value reported when no sell cell is populated. */
  const NoBestSell := 91

  /** `max(lo, min(value, hi))`. */
  function Clamp(value: int, lo: int, hi: int): (r: int)
    ensures lo <= hi ==> lo <= r <= hi
    ensures lo <= value <= hi ==> r == value
    ensures value < lo ==> r == lo
    ensures lo <= hi < value ==> r == hi
  {
    var capped := if value < hi then value else hi;
    if lo > capped then lo else capped
  }

  // ----- Volatility modes -------------------------------------------------

  /** The four behaviours a buy delta can follow. */
  datatype Swing = Narrow | Medium | Wide | Jump

  /**
   * The behaviour of a mode's buy delta.  `branch` is MIXED's own draw
   * (`nextInt(4)`); the other modes ignore it.  PANIC behaves like CALM.
   */
  function SwingOf(mode: AggressivenessMode, branch: int): (swing: Swing)
    ensures swing == Jump <==> mode == Aggressive || (mode == Mixed && !(0 <= branch < 3))
    ensures mode == Calm || mode == ModeratelySharp || mode == Sharp ==> DrawBound(swing) == 2 * Level(mode) + 1
    ensures mode == Panic ==> swing == Narrow
  {
    match mode
    case Calm => Narrow
    case ModeratelySharp => Medium
    case Sharp => Wide
    case Aggressive => Jump
    case Mixed =>
      if branch == 0 then Narrow
      else if branch == 1 then Medium
      else if branch == 2 then Wide
      else Jump
    case Panic => Narrow
  }

  /** The bound `n` of the uniform draw `nextInt(n)` behind a swing. */
  function DrawBound(swing: Swing): nat
  {
    match swing
    case Narrow => 3
    case Medium => 5
    case Wide => 7
    case Jump => 21
  }

  /**
   * The change to `buyStart` for the raw draw `draw`.  A jump moves the
   * start by up to ten cells but never past the clamped window of the
   * current (not yet updated) spread.
   */
  function BuyDelta(swing: Swing, draw: int, buyStart: int, spread: int): (delta: int)
    requires 0 <= draw < DrawBound(swing)
    ensures swing == Narrow ==> -1 <= delta <= 1
    ensures swing == Medium ==> -2 <= delta <= 2
    ensures swing == Wide ==> -3 <= delta <= 3
    ensures swing == Jump && MinPrice <= MaxBuyEnd - spread ==> MinPrice <= buyStart + delta <= MaxBuyEnd - spread
    ensures swing == Jump && MinPrice <= buyStart <= MaxBuyEnd - spread ==> -10 <= delta <= 10
  {
    match swing
    case Narrow => draw - 1
    case Medium => draw - 2
    case Wide => draw - 3
    case Jump =>
      var move := draw - 10;
      Clamp(buyStart + move, MinPrice, MaxBuyEnd - spread) - buyStart
  }

  /** The per-mode ranges of the buy delta: CALM and PANIC share the calm range. */
  lemma ModeDeltaRange(mode: AggressivenessMode, branch: int, draw: int, buyStart: int, spread: int)
    requires 0 <= draw < DrawBound(SwingOf(mode, branch))
    ensures var delta := BuyDelta(SwingOf(mode, branch), draw, buyStart, spread);
      && (mode == Calm || mode == Panic ==> -1 <= delta <= 1)
      && (mode == ModeratelySharp ==> -2 <= delta <= 2)
      && (mode == Sharp ==> -3 <= delta <= 3)
      && (mode == Aggressive && MinPrice <= MaxBuyEnd - spread ==> MinPrice <= buyStart + delta <= MaxBuyEnd - spread)
      && (mode == Mixed ==> -3 <= delta <= 3 || SwingOf(mode, branch) == Jump)
  {
  }

  /**
   * Every delta of a non-jump swing's range is produced by some draw:
   * [-1, 1] by `nextInt(3)`, [-2, 2] by `nextInt(5)`, [-3, 3] by `nextInt(7)`.
   */
  lemma SwingCovers(swing: Swing, delta: int, buyStart: int, spread: int)
    requires swing != Jump
    requires -(DrawBound(swing) / 2) <= delta <= DrawBound(swing) / 2
    ensures exists draw :: 0 <= draw < DrawBound(swing) && BuyDelta(swing, draw, buyStart, spread) == delta
  {
    var draw := delta + DrawBound(swing) / 2;
    assert BuyDelta(swing, draw, buyStart, spread) == delta;
  }

  /**
   * Outside MIXED the branch draw is ignored, and PANIC swings like CALM;
   * MIXED swings like one of the first four modes, chosen by its branch.
   */
  lemma SwingByMode(mode: AggressivenessMode, branch: int, other: int)
    ensures mode != Mixed ==> SwingOf(mode, branch) == SwingOf(mode, other)
    ensures SwingOf(Panic, branch) == SwingOf(Calm, other)
    ensures 0 <= branch < 4 ==> SwingOf(Mixed, branch) == SwingOf(FromLevel(branch + 1), other)
  {
  }

  /**
   * The recommended wait before the next tick.  `pick` is MIXED's choice
   * among its four delays (`listOf(...).random()`); the other modes ignore it.
   */
  function DelayMillis(mode: AggressivenessMode, pick: int): (millis: int)
    requires 0 <= pick < 4
    ensures millis > 0
  {
    match mode
    case Calm => 1000
    case ModeratelySharp => 500
    case Sharp => 300
    case Aggressive => 150
    case Mixed => [1000, 500, 300, 150][pick]
    case Panic => 5
  }

  /**
   * Outside MIXED the delay depends on the mode alone and shrinks as the
   * level grows; MIXED waits as long as one of the first four regimes.
   */
  lemma DelayByLevel(a: AggressivenessMode, b: AggressivenessMode, pick: int, other: int)
    requires 0 <= pick < 4 && 0 <= other < 4
    ensures a != Mixed ==> DelayMillis(a, pick) == DelayMillis(a, other)
    ensures a != Mixed && b != Mixed && Level(a) < Level(b) ==> DelayMillis(a, pick) > DelayMillis(b, pick)
    ensures DelayMillis(Mixed, pick) == DelayMillis(FromLevel(pick + 1), other)
  {
  }

  // ----- Abstract state and one tick --------------------------------------

  /** The raw random draws one tick consumes, in the order the tick uses them. */
  datatype Draws = Draws(branch: int, buyDraw: int, spreadDraw: int, buyQty: seq<int>, sellQty: seq<int>)

  /** A block of `Depth` quantities, each drawn by `nextInt(11)`. */
  predicate QtyDraws(qty: seq<int>)
  {
    |qty| == Depth && forall q :: q in qty ==> 0 <= q <= MaxQty
  }

  /** The draws lie in the ranges the simulator's `nextInt` calls return. */
  predicate DrawsFit(mode: AggressivenessMode, d: Draws)
    ensures DrawsFit(mode, d) ==> 0 <= d.buyDraw < DrawBound(Jump)
    ensures DrawsFit(mode, d) && SwingOf(mode, d.branch) != Jump ==> -3 <= d.buyDraw - DrawBound(SwingOf(mode, d.branch)) / 2 <= 3
  {
    && 0 <= d.branch < 4
    && 0 <= d.buyDraw < DrawBound(SwingOf(mode, d.branch))
    && 0 <= d.spreadDraw < 3
    && QtyDraws(d.buyQty)
    && QtyDraws(d.sellQty)
  }

  /** Everything a simulator holds, as one value. */
  datatype SimState = SimState(
    totalCells: nat,
    maxHistory: nat,
    buyStart: int,
    spread: int,
    mode: AggressivenessMode,
    active: bool,
    buy: seq<int>,
    sell: seq<int>,
    bestBuys: seq<int>,
    bestSells: seq<int>,
    mids: seq<int>)

  /** The first price of the sell block. */
  function SellStart(buyStart: int, spread: int): (start: int)
    ensures spread >= 0 ==> start >= buyStart + Depth
  {
    buyStart + Depth + spread
  }

  function Zeros(n: nat): (cells: seq<int>)
    ensures |cells| == n && forall p :: 0 <= p < n ==> cells[p] == 0
  {
    seq(n, _ => 0)
  }

  /** `n` cells that are empty except for `qty` written from `start` on. */
  function Layout(n: nat, start: int, qty: seq<int>): (cells: seq<int>)
    ensures |cells| == n
    ensures forall p :: 0 <= p < n && !(start <= p < start + |qty|) ==> cells[p] == 0
    ensures forall p :: 0 <= p < n ==> cells[p] == 0 || cells[p] in qty
  {
    seq(n, p => if start <= p < start + |qty| then qty[p - start] else 0)
  }

  /** Each cell holds a quantity in [0, 10], and the non-empty ones lie in [start, start + 10). */
  ghost predicate InWindow(cells: seq<int>, start: int)
  {
    forall p :: 0 <= p < |cells| ==> 0 <= cells[p] <= MaxQty && (cells[p] != 0 ==> start <= p < start + Depth)
  }

  /** The three histories have equal length within the cap, and every recorded triple is ordered. */
  ghost predicate HistoriesOk(s: SimState)
  {
    && |s.bestBuys| == |s.bestSells| == |s.mids| <= s.maxHistory
    && forall i :: 0 <= i < |s.mids| ==>
         MinPrice <= s.bestBuys[i] <= s.mids[i] < s.bestSells[i] <= MaxBestSell
  }

  /** The simulator's invariant. */
  ghost predicate Inv(s: SimState)
  {
    && s.totalCells >= 100 && s.maxHistory >= 1
    && |s.buy| == s.totalCells && |s.sell| == s.totalCells
    && 0 <= s.spread <= 5 && MinPrice <= s.buyStart <= MaxBuyEnd - s.spread
    && InWindow(s.buy, s.buyStart) && InWindow(s.sell, SellStart(s.buyStart, s.spread))
    && HistoriesOk(s)
  }

  /** The highest cell of [lo, hi) holding a positive quantity (`filter … maxOrNull()`). */
  function HighestPopulated(cells: seq<int>, lo: int, hi: int): (r: Option<int>)
    requires 0 <= lo && hi <= |cells|
    ensures r.None? ==> forall p :: lo <= p < hi ==> cells[p] <= 0
    ensures r.Some? ==> lo <= r.value < hi && cells[r.value] > 0
    ensures r.Some? ==> forall p :: r.value < p < hi ==> cells[p] <= 0
    decreases hi - lo
  {
    if hi <= lo then None
    else if cells[hi - 1] > 0 then Some(hi - 1)
    else HighestPopulated(cells, lo, hi - 1)
  }

  /** The lowest cell of [lo, hi) holding a positive quantity (`filter … minOrNull()`). */
  function LowestPopulated(cells: seq<int>, lo: int, hi: int): (r: Option<int>)
    requires 0 <= lo && hi <= |cells|
    ensures r.None? ==> forall p :: lo <= p < hi ==> cells[p] <= 0
    ensures r.Some? ==> lo <= r.value < hi && cells[r.value] > 0
    ensures r.Some? ==> forall p :: lo <= p < r.value ==> cells[p] <= 0
    decreases hi - lo
  {
    if hi <= lo then None
    else if cells[lo] > 0 then Some(lo)
    else LowestPopulated(cells, lo + 1, hi)
  }

  /** The best buy price, or -1 when no buy cell from MinPrice up is populated. */
  function BestBuy(buy: seq<int>): (price: int)
    ensures price == -1 <==> forall p :: MinPrice <= p < |buy| ==> buy[p] <= 0
    ensures price != -1 ==> MinPrice <= price < |buy| && buy[price] > 0
    ensures price != -1 ==> forall p :: price < p < |buy| ==> buy[p] <= 0
  {
    match HighestPopulated(buy, MinPrice, |buy|)
    case Some(p) => p
    case None => -1
  }

  /** The best sell price, or NoBestSell (91) when no sell cell from MinPrice up is populated. */
  function BestSell(sell: seq<int>): (price: int)
    ensures price >= MinPrice
    ensures (forall p :: MinPrice <= p < |sell| ==> sell[p] <= 0) ==> price == NoBestSell
    ensures (price < |sell| && sell[price] > 0) || forall p :: MinPrice <= p < |sell| ==> sell[p] <= 0
    ensures forall p :: MinPrice <= p < |sell| && p < price ==> sell[p] <= 0
  {
    match LowestPopulated(sell, MinPrice, |sell|)
    case Some(p) => p
    case None => NoBestSell
  }

  /**
   * Appends the triple (bestBuy, bestSell, mid) when both best prices lie in
   * the recordable range, first evicting the oldest triple when the mid
   * history is at capacity; otherwise leaves the histories alone.
   */
  function Record(s: SimState, bestBuy: int, bestSell: int): (t: SimState)
    requires |s.bestBuys| == |s.bestSells| == |s.mids| <= s.maxHistory && s.maxHistory >= 1
    requires bestSell >= MinPrice
    ensures |t.bestBuys| == |t.bestSells| == |t.mids| <= t.maxHistory
    ensures t.(bestBuys := s.bestBuys, bestSells := s.bestSells, mids := s.mids) == s
  {
    var mid := if bestBuy >= MinPrice && bestSell <= MaxBestSell then (bestBuy + bestSell) / 2 else -1;
    if mid != -1 then
      var drop := if |s.mids| == s.maxHistory then 1 else 0;
      s.(bestBuys := s.bestBuys[drop..] + [bestBuy],
         bestSells := s.bestSells[drop..] + [bestSell],
         mids := s.mids[drop..] + [mid])
    else s
  }

  /** The new spread of an active tick. */
  function NextSpread(s: SimState, d: Draws): (spread: int)
    ensures 0 <= spread <= 5
    ensures 0 <= s.spread <= 5 && 0 <= d.spreadDraw < 3 ==> -1 <= spread - s.spread <= 1
  {
    Clamp(s.spread + (d.spreadDraw - 1), 0, 5)
  }

  /** The new buy start of an active tick, clamped against the new spread. */
  function NextBuyStart(s: SimState, d: Draws): (start: int)
    requires DrawsFit(s.mode, d)
    ensures MinPrice <= start <= MaxBuyEnd - NextSpread(s, d)
    ensures SwingOf(s.mode, d.branch) != Jump && 0 <= s.spread <= 5 && MinPrice <= s.buyStart <= MaxBuyEnd - s.spread
      ==> -3 <= start - s.buyStart <= 3
  {
    var moved := s.buyStart + BuyDelta(SwingOf(s.mode, d.branch), d.buyDraw, s.buyStart, s.spread);
    Clamp(moved, MinPrice, MaxBuyEnd - NextSpread(s, d))
  }

  /** The state after an active tick has moved both blocks and refilled both books. */
  function Regenerate(s: SimState, d: Draws): (t: SimState)
    requires DrawsFit(s.mode, d)
    ensures 0 <= t.spread <= 5 && MinPrice <= t.buyStart <= MaxBuyEnd - t.spread
    ensures |t.buy| == |t.sell| == s.totalCells
    ensures InWindow(t.buy, t.buyStart) && InWindow(t.sell, SellStart(t.buyStart, t.spread))
    ensures t.(buyStart := s.buyStart, spread := s.spread, buy := s.buy, sell := s.sell) == s
  {
    var spread := NextSpread(s, d);
    var start := NextBuyStart(s, d);
    LayoutInWindow(s.totalCells, start, d.buyQty);
    LayoutInWindow(s.totalCells, SellStart(start, spread), d.sellQty);
    s.(buyStart := start, spread := spread,
       buy := Layout(s.totalCells, start, d.buyQty),
       sell := Layout(s.totalCells, SellStart(start, spread), d.sellQty))
  }

  /** One tick (`updateBooks`): regenerate both books and record the best prices. */
  function Tick(s: SimState, d: Draws): (t: SimState)
    requires Inv(s) && DrawsFit(s.mode, d)
    ensures t.totalCells == s.totalCells && t.maxHistory == s.maxHistory
    ensures t.mode == s.mode && t.active == s.active
  {
    if !s.active then
      s.(buy := Zeros(s.totalCells), sell := Zeros(s.totalCells))
    else
      var u := Regenerate(s, d);
      Record(u, BestBuy(u.buy), BestSell(u.sell))
  }

  // ----- Properties of a tick ---------------------------------------------

  /** Every populated buy price lies strictly below every populated sell price. */
  lemma BookNeverCrosses(s: SimState, p: int, q: int)
    requires Inv(s)
    requires 0 <= p < |s.buy| && s.buy[p] > 0
    requires 0 <= q < |s.sell| && s.sell[q] > 0
    ensures p < q
  {
  }

  /** A populated best buy lies below a populated best sell, and so the mid lies between them. */
  lemma {:induction false} BestPricesOrdered(s: SimState)
    requires Inv(s)
    requires BestBuy(s.buy) >= MinPrice && BestSell(s.sell) <= MaxBestSell
    ensures var bb, bs := BestBuy(s.buy), BestSell(s.sell);
      bb < bs && bb <= (bb + bs) / 2 < bs
  {
    var bb := HighestPopulated(s.buy, MinPrice, |s.buy|);
    var bs := LowestPopulated(s.sell, MinPrice, |s.sell|);
    assert bb.Some?;
    assert bs.Some?;
    BookNeverCrosses(s, bb.value, bs.value);
  }

  /** The layouts a tick writes stay within their windows and within [0, 10]. */
  lemma {:induction false} LayoutInWindow(n: nat, start: int, qty: seq<int>)
    requires QtyDraws(qty)
    ensures InWindow(Layout(n, start, qty), start)
  {
    var cells := Layout(n, start, qty);
    forall p | 0 <= p < n
      ensures 0 <= cells[p] <= MaxQty && (cells[p] != 0 ==> start <= p < start + Depth)
    {
      if start <= p < start + |qty| {
        assert qty[p - start] in qty;
      }
    }
  }

  /** Recording keeps the histories equal-length, capped and ordered. */
  lemma {:induction false} RecordKeepsHistories(s: SimState)
    requires Inv(s)
    ensures HistoriesOk(Record(s, BestBuy(s.buy), BestSell(s.sell)))
  {
    var bb, bs := BestBuy(s.buy), BestSell(s.sell);
    if bb >= MinPrice && bs <= MaxBestSell {
      BestPricesOrdered(s);
      var t := Record(s, bb, bs);
      var drop := if |s.mids| == s.maxHistory then 1 else 0;
      forall i | 0 <= i < |t.mids|
        ensures MinPrice <= t.bestBuys[i] <= t.mids[i] < t.bestSells[i] <= MaxBestSell
      {
        if i < |t.mids| - 1 {
          assert t.bestBuys[i] == s.bestBuys[i + drop];
          assert t.bestSells[i] == s.bestSells[i + drop];
          assert t.mids[i] == s.mids[i + drop];
        }
      }
    }
  }

  /**
   * A tick keeps the invariant: after it the spread lies in [0, 5], the buy
   * start in [MinPrice, MaxBuyEnd - spread], each book is populated only inside its
   * window with quantities in [0, 10], and the histories stay equal-length,
   * capped and ordered.
   */
  lemma {:induction false} TickKeepsInv(s: SimState, d: Draws)
    requires Inv(s) && DrawsFit(s.mode, d)
    ensures Inv(Tick(s, d))
  {
    if s.active {
      var u := Regenerate(s, d);
      assert Inv(u);
      RecordKeepsHistories(u);
    }
  }

  /** A tick with trading inactive empties both books and changes nothing else. */
  lemma InactiveTick(s: SimState, d: Draws)
    requires Inv(s) && DrawsFit(s.mode, d) && !s.active
    ensures var t := Tick(s, d);
      && (forall p :: 0 <= p < s.totalCells ==> t.buy[p] == 0 && t.sell[p] == 0)
      && t.(buy := s.buy, sell := s.sell) == s
  {
  }

  /** An active tick keeps the mode and the flag, and moves the spread by at most one within [0, 5]. */
  lemma ActiveTickSpread(s: SimState, d: Draws)
    requires Inv(s) && DrawsFit(s.mode, d) && s.active
    ensures var t := Tick(s, d);
      && 0 <= t.spread <= 5 && -1 <= t.spread - s.spread <= 1
      && t.mode == s.mode && t.active
  {
    ActiveTickRegenerates(s, d);
  }

  /**
   * An active tick fills cell p of the buy book exactly when p lies in the
   * new buy block and its draw is positive, and likewise for the sell block.
   */
  lemma ActiveTickBooks(s: SimState, d: Draws, p: int)
    requires Inv(s) && DrawsFit(s.mode, d) && s.active
    requires 0 <= p < s.totalCells
    ensures var t := Tick(s, d);
      && (t.buy[p] > 0 <==> t.buyStart <= p < t.buyStart + Depth && d.buyQty[p - t.buyStart] > 0)
      && (t.sell[p] > 0 <==> SellStart(t.buyStart, t.spread) <= p < SellStart(t.buyStart, t.spread) + Depth && d.sellQty[p - SellStart(t.buyStart, t.spread)] > 0)
  {
    ActiveTickBuyCell(s, d, p);
    ActiveTickSellCell(s, d, p);
  }

  /** The buy half of `ActiveTickBooks`. */
  lemma ActiveTickBuyCell(s: SimState, d: Draws, p: int)
    requires Inv(s) && DrawsFit(s.mode, d) && s.active
    requires 0 <= p < s.totalCells
    ensures var t := Tick(s, d);
      t.buy[p] > 0 <==> t.buyStart <= p < t.buyStart + Depth && d.buyQty[p - t.buyStart] > 0
  {
    ActiveTickRegenerates(s, d);
    RegeneratedCell(s, d, p);
    var u := Regenerate(s, d);
    assert u.buy[p] == if u.buyStart <= p < u.buyStart + Depth then d.buyQty[p - u.buyStart] else 0;
  }

  /** The sell half of `ActiveTickBooks`. */
  lemma ActiveTickSellCell(s: SimState, d: Draws, p: int)
    requires Inv(s) && DrawsFit(s.mode, d) && s.active
    requires 0 <= p < s.totalCells
    ensures var t := Tick(s, d);
      t.sell[p] > 0 <==> SellStart(t.buyStart, t.spread) <= p < SellStart(t.buyStart, t.spread) + Depth && d.sellQty[p - SellStart(t.buyStart, t.spread)] > 0
  {
    ActiveTickRegenerates(s, d);
    RegeneratedCell(s, d, p);
    var u := Regenerate(s, d);
    var start := SellStart(u.buyStart, u.spread);
    assert u.sell[p] == if start <= p < start + Depth then d.sellQty[p - start] else 0;
  }

  /** Cell p of the regenerated books holds the draw of its block position, or nothing outside the blocks. */
  lemma RegeneratedCell(s: SimState, d: Draws, p: int)
    requires DrawsFit(s.mode, d)
    requires 0 <= p < s.totalCells
    ensures var u := Regenerate(s, d);
      && u.buy[p] == (if u.buyStart <= p < u.buyStart + Depth then d.buyQty[p - u.buyStart] else 0)
      && u.sell[p] == (if SellStart(u.buyStart, u.spread) <= p < SellStart(u.buyStart, u.spread) + Depth
                       then d.sellQty[p - SellStart(u.buyStart, u.spread)] else 0)
  {
  }

  /** An active tick leaves the books, the start and the spread as regenerated. */
  lemma ActiveTickRegenerates(s: SimState, d: Draws)
    requires Inv(s) && DrawsFit(s.mode, d) && s.active
    ensures var t, u := Tick(s, d), Regenerate(s, d);
      t.buy == u.buy && t.sell == u.sell && t.buyStart == u.buyStart && t.spread == u.spread
  {
  }

  /**
   * The histories after recording: a triple is appended exactly when both
   * best prices are recordable; it comes last, and the histories keep the
   * most recent min(n + 1, maxHistory) triples in order (FIFO).
   */
  lemma {:induction false} RecordFifo(s: SimState, bestBuy: int, bestSell: int)
    requires |s.bestBuys| == |s.bestSells| == |s.mids| <= s.maxHistory && s.maxHistory >= 1
    requires bestSell >= MinPrice
    ensures var t := Record(s, bestBuy, bestSell);
      if bestBuy >= MinPrice && bestSell <= MaxBestSell then
        var n, mid := |s.mids|, (bestBuy + bestSell) / 2;
        var k := if n < s.maxHistory then n + 1 else s.maxHistory;
        && |t.bestBuys| == |t.bestSells| == |t.mids| == k
        && t.bestBuys == (s.bestBuys + [bestBuy])[n + 1 - k..]
        && t.bestSells == (s.bestSells + [bestSell])[n + 1 - k..]
        && t.mids == (s.mids + [mid])[n + 1 - k..]
      else
        t == s
  {
    if bestBuy >= MinPrice && bestSell <= MaxBestSell {
      var mid := (bestBuy + bestSell) / 2;
      assert mid >= MinPrice;
      var drop := if |s.mids| == s.maxHistory then 1 else 0;
      DropThenAppend(s.bestBuys, bestBuy, drop);
      DropThenAppend(s.bestSells, bestSell, drop);
      DropThenAppend(s.mids, mid, drop);
    }
  }

  /** Dropping a prefix then appending is appending then dropping the same prefix. */
  lemma {:induction false} DropThenAppend<T>(h: seq<T>, x: T, drop: nat)
    requires drop <= |h|
    ensures h[drop..] + [x] == (h + [x])[drop..]
  {
  }

  // ----- The snapshot -----------------------------------------------------

  /** The populated cells of [lo, hi) as (price, quantity) pairs (`mapNotNull`). */
  function Levels(cells: seq<int>, lo: int, hi: int): (levels: seq<OrderData>)
    requires 0 <= lo && hi <= |cells|
    ensures forall i :: 0 <= i < |levels| ==> lo <= levels[i].price < hi && levels[i].qty > 0
    decreases hi - lo
  {
    if hi <= lo then []
    else (if cells[lo] > 0 then [OrderData(lo, cells[lo])] else []) + Levels(cells, lo + 1, hi)
  }

  /**
   * `levels` lists exactly the cells of [lo, hi) with a positive quantity,
   * each with that quantity, in strictly ascending price order.
   */
  ghost predicate Listed(levels: seq<OrderData>, cells: seq<int>, lo: int, hi: int)
    requires 0 <= lo && hi <= |cells|
  {
    && FromCells(levels, cells, lo, hi)
    && Ascending(levels)
    && (forall p :: lo <= p < hi && cells[p] > 0 ==> exists i :: 0 <= i < |levels| && levels[i].price == p)
  }

  /** Every level is a populated cell of [lo, hi) with that cell's quantity. */
  ghost predicate FromCells(levels: seq<OrderData>, cells: seq<int>, lo: int, hi: int)
    requires 0 <= lo && hi <= |cells|
  {
    forall i :: 0 <= i < |levels| ==>
      lo <= levels[i].price < hi && levels[i].qty == cells[levels[i].price] && levels[i].qty > 0
  }

  /** The prices of `levels` strictly ascend. */
  ghost predicate Ascending(levels: seq<OrderData>)
  {
    forall i, j :: 0 <= i < j < |levels| ==> levels[i].price < levels[j].price
  }

  lemma {:induction false} LevelsListed(cells: seq<int>, lo: int, hi: int)
    requires 0 <= lo && hi <= |cells|
    ensures Listed(Levels(cells, lo, hi), cells, lo, hi)
    decreases hi - lo
  {
    if lo < hi {
      var rest := Levels(cells, lo + 1, hi);
      LevelsListed(cells, lo + 1, hi);
      if cells[lo] > 0 {
        assert Levels(cells, lo, hi) == [OrderData(lo, cells[lo])] + rest;
        ListedCons(rest, cells, lo, hi);
      } else {
        assert Levels(cells, lo, hi) == rest;
        ListedSkip(rest, cells, lo, hi);
      }
    }
  }

  /** A populated cell at `lo` put in front of the listing of (lo, hi) lists [lo, hi). */
  lemma {:induction false} ListedCons(rest: seq<OrderData>, cells: seq<int>, lo: int, hi: int)
    requires 0 <= lo < hi <= |cells| && cells[lo] > 0
    requires Listed(rest, cells, lo + 1, hi)
    ensures Listed([OrderData(lo, cells[lo])] + rest, cells, lo, hi)
  {
    var all := [OrderData(lo, cells[lo])] + rest;
    ConsFromCells(rest, cells, lo, hi);
    ConsAscending(OrderData(lo, cells[lo]), rest);
    forall p | lo <= p < hi && cells[p] > 0
      ensures exists i :: 0 <= i < |all| && all[i].price == p
    {
      if p == lo {
        assert all[0].price == p;
      } else {
        var i :| 0 <= i < |rest| && rest[i].price == p;
        assert all[1 + i].price == p;
      }
    }
  }

  lemma {:induction false} ConsFromCells(rest: seq<OrderData>, cells: seq<int>, lo: int, hi: int)
    requires 0 <= lo < hi <= |cells| && cells[lo] > 0
    requires FromCells(rest, cells, lo + 1, hi)
    ensures FromCells([OrderData(lo, cells[lo])] + rest, cells, lo, hi)
  {
    var all := [OrderData(lo, cells[lo])] + rest;
    forall i | 0 <= i < |all|
      ensures lo <= all[i].price < hi && all[i].qty == cells[all[i].price] && all[i].qty > 0
    {
      if i > 0 {
        assert all[i] == rest[i - 1];
      }
    }
  }

  lemma {:induction false} ConsAscending(first: OrderData, rest: seq<OrderData>)
    requires forall i :: 0 <= i < |rest| ==> first.price < rest[i].price
    requires Ascending(rest)
    ensures Ascending([first] + rest)
  {
    var all := [first] + rest;
    forall i, j | 0 <= i < j < |all|
      ensures all[i].price < all[j].price
    {
      assert all[j] == rest[j - 1];
      if i > 0 {
        assert all[i] == rest[i - 1];
      }
    }
  }

  /** An empty cell at `lo` leaves the listing of (lo, hi) a listing of [lo, hi). */
  lemma {:induction false} ListedSkip(rest: seq<OrderData>, cells: seq<int>, lo: int, hi: int)
    requires 0 <= lo < hi <= |cells| && cells[lo] <= 0
    requires Listed(rest, cells, lo + 1, hi)
    ensures Listed(rest, cells, lo, hi)
  {
    forall p | lo <= p < hi && cells[p] > 0
      ensures exists i :: 0 <= i < |rest| && rest[i].price == p
    {
      assert lo + 1 <= p;
    }
  }

  // ----- The simulator object ---------------------------------------------

  /** Sets every cell of `a` to zero (`fill(0)`). */
  method ClearCells(a: array<int>)
    modifies a
    ensures a[..] == Zeros(a.Length)
  {
    forall p | 0 <= p < a.Length {
      a[p] := 0;
    }
  }

  /**
   * Writes `qty[i]` into cell `start + i` wherever it is positive, into a
   * book that was empty before.
   */
  method FillBlock(a: array<int>, start: int, qty: seq<int>)
    requires 0 <= start && start + |qty| <= a.Length
    requires a[..] == Zeros(a.Length)
    requires forall q :: q in qty ==> q >= 0
    modifies a
    ensures a[..] == Layout(a.Length, start, qty)
  {
    for price := start to start + |qty|
      invariant forall p :: 0 <= p < a.Length ==> a[p] == if start <= p < price then qty[p - start] else 0
    {
      var q := qty[price - start];
      assert q in qty;
      if q > 0 {
        a[price] := q;
      }
    }
  }

  class QuoteSimulator {
    const totalCells: nat
    const maxHistory: nat
    var currentBuyStart: int
    var currentSpread: int
    var aggressivenessMode: AggressivenessMode
    var tradingActive: bool
    const buyOrders: array<int>
    const sellOrders: array<int>
    var bestBuyHistory: seq<int>
    var bestSellHistory: seq<int>
    var midHistory: seq<int>

    /** The simulator's state as one value. */
    ghost function State(): SimState
      reads this, buyOrders, sellOrders
    {
      SimState(totalCells, maxHistory, currentBuyStart, currentSpread, aggressivenessMode, tradingActive,
               buyOrders[..], sellOrders[..], bestBuyHistory, bestSellHistory, midHistory)
    }

    ghost predicate Valid()
      reads this, buyOrders, sellOrders
    {
      buyOrders != sellOrders && Inv(State())
    }

    /**
     * A simulator with `totalCells` cells per book and histories capped at
     * `maxHistory`: buy start 50, spread 0, CALM, trading, empty books and
     * histories.  The tick writes up to cell 99 and evicts from a full
     * history, hence the two bounds.
     */
    constructor (totalCells: nat, maxHistory: nat)
      requires totalCells >= 100 && maxHistory >= 1
      ensures Valid() && fresh(buyOrders) && fresh(sellOrders)
      ensures State() == SimState(totalCells, maxHistory, 50, 0, Calm, true,
                                  Zeros(totalCells), Zeros(totalCells), [], [], [])
    {
      this.totalCells := totalCells;
      this.maxHistory := maxHistory;
      currentBuyStart := 50;
      currentSpread := 0;
      aggressivenessMode := Calm;
      tradingActive := true;
      buyOrders := new int[totalCells](_ => 0);
      sellOrders := new int[totalCells](_ => 0);
      bestBuyHistory := [];
      bestSellHistory := [];
      midHistory := [];
    }

    /** Changes the mode and nothing else. */
    method SetAggressiveness(mode: AggressivenessMode)
      requires Valid()
      modifies this
      ensures Valid() && State() == old(State()).(mode := mode)
    {
      aggressivenessMode := mode;
    }

    /** Turns trading on and empties the histories; the books and the mode stay. */
    method StartTrading()
      requires Valid()
      modifies this
      ensures Valid()
      ensures State() == old(State()).(active := true, bestBuys := [], bestSells := [], mids := [])
    {
      tradingActive := true;
      ClearHistories();
    }

    /** Turns trading off and empties both books and the histories. */
    method StopTrading()
      requires Valid()
      modifies this, buyOrders, sellOrders
      ensures Valid()
      ensures State() == old(State()).(active := false, buy := Zeros(totalCells), sell := Zeros(totalCells),
                                       bestBuys := [], bestSells := [], mids := [])
    {
      tradingActive := false;
      ClearBooks();
      ClearHistories();
    }

    /** Whether ticks currently regenerate the books (`isTrading`). */
    function IsTrading(): (trading: bool)
      reads this, buyOrders, sellOrders
      requires Valid()
      ensures trading == State().active
    {
      tradingActive
    }

    /** The wait before the next tick in the current mode; `pick` is MIXED's draw (`nextDelayMillis`). */
    method NextDelayMillis(pick: int) returns (millis: int)
      requires 0 <= pick < 4
      ensures millis == DelayMillis(aggressivenessMode, pick) && millis > 0
    {
      millis := DelayMillis(aggressivenessMode, pick);
    }

    method ClearBooks()
      modifies buyOrders, sellOrders
      ensures buyOrders[..] == Zeros(buyOrders.Length) && sellOrders[..] == Zeros(sellOrders.Length)
    {
      ClearCells(buyOrders);
      ClearCells(sellOrders);
    }

    method ClearHistories()
      modifies this
      ensures bestBuyHistory == [] && bestSellHistory == [] && midHistory == []
      ensures currentBuyStart == old(currentBuyStart) && currentSpread == old(currentSpread)
      ensures aggressivenessMode == old(aggressivenessMode) && tradingActive == old(tradingActive)
    {
      bestBuyHistory := [];
      bestSellHistory := [];
      midHistory := [];
    }

    /** One tick with the given draws (`updateBooks`). */
    method UpdateBooks(d: Draws)
      requires Valid() && DrawsFit(aggressivenessMode, d)
      modifies this, buyOrders, sellOrders
      ensures Valid() && State() == Tick(old(State()), d)
    {
      ghost var s := State();
      TickKeepsInv(s, d);
      if !tradingActive {
        ClearBooks();
        return;
      }
      RegenerateBooks(d);
      RecordBest(BestBuy(buyOrders[..]), BestSell(sellOrders[..]));
    }

    /** Empties both books, moves both blocks and refills them with the drawn quantities. */
    method RegenerateBooks(d: Draws)
      requires buyOrders != sellOrders && buyOrders.Length == sellOrders.Length == totalCells >= 100
      requires 0 <= currentSpread <= 5 && MinPrice <= currentBuyStart <= MaxBuyEnd - currentSpread
      requires DrawsFit(aggressivenessMode, d)
      modifies this`currentBuyStart, this`currentSpread, buyOrders, sellOrders
      ensures State() == Regenerate(old(State()), d)
    {
      ghost var s := State();
      ClearBooks();
      assert State() == s.(buy := buyOrders[..], sell := sellOrders[..]);
      assert NextSpread(State(), d) == NextSpread(s, d) && NextBuyStart(State(), d) == NextBuyStart(s, d);
      MoveBlocks(d);
      FillBlock(buyOrders, currentBuyStart, d.buyQty);
      ghost var buyCells := buyOrders[..];
      FillBlock(sellOrders, SellStart(currentBuyStart, currentSpread), d.sellQty);
      assert buyOrders[..] == buyCells;
    }

    /** Moves the buy start by the mode's delta and the spread by its own, clamping both. */
    method MoveBlocks(d: Draws)
      requires DrawsFit(aggressivenessMode, d)
      modifies this`currentBuyStart, this`currentSpread
      ensures currentSpread == NextSpread(old(State()), d)
      ensures currentBuyStart == NextBuyStart(old(State()), d)
    {
      currentBuyStart := currentBuyStart + BuyDelta(SwingOf(aggressivenessMode, d.branch), d.buyDraw, currentBuyStart, currentSpread);
      currentSpread := currentSpread + (d.spreadDraw - 1);
      currentSpread := Clamp(currentSpread, 0, 5);
      if currentBuyStart < MinPrice {
        currentBuyStart := MinPrice;
      }
      if currentBuyStart > MaxBuyEnd - currentSpread {
        currentBuyStart := MaxBuyEnd - currentSpread;
      }
    }

    /** Appends the best prices and their mid to the histories when a mid exists. */
    method RecordBest(bestBuy: int, bestSell: int)
      requires |bestBuyHistory| == |bestSellHistory| == |midHistory| <= maxHistory && maxHistory >= 1
      requires bestSell >= MinPrice
      modifies this`bestBuyHistory, this`bestSellHistory, this`midHistory
      ensures State() == Record(old(State()), bestBuy, bestSell)
    {
      var mid := if bestBuy >= MinPrice && bestSell <= MaxBestSell then (bestBuy + bestSell) / 2 else -1;
      if mid != -1 {
        if |midHistory| == maxHistory {
          bestBuyHistory := bestBuyHistory[1..];
          bestSellHistory := bestSellHistory[1..];
          midHistory := midHistory[1..];
        }
        bestBuyHistory := bestBuyHistory + [bestBuy];
        bestSellHistory := bestSellHistory + [bestSell];
        midHistory := midHistory + [mid];
      }
    }

    /**
     * The current snapshot: the populated cells from MinPrice up of each
     * book, in ascending price order, and the three histories.
     */
    function Snapshot(): (q: QuoteMessage)
      reads this, buyOrders, sellOrders
      requires Valid()
      ensures Listed(q.buy, buyOrders[..], MinPrice, totalCells)
      ensures Listed(q.sell, sellOrders[..], MinPrice, totalCells)
      ensures q.history == HistoryData(bestBuyHistory, bestSellHistory, midHistory)
    {
      LevelsListed(buyOrders[..], MinPrice, totalCells);
      LevelsListed(sellOrders[..], MinPrice, totalCells);
      QuoteMessage(Levels(buyOrders[..], MinPrice, totalCells),
                   Levels(sellOrders[..], MinPrice, totalCells),
                   HistoryData(bestBuyHistory, bestSellHistory, midHistory))
    }

    /** One tick followed by the snapshot of its result. */
    method NextQuote(d: Draws) returns (q: QuoteMessage)
      requires Valid() && DrawsFit(aggressivenessMode, d)
      modifies this, buyOrders, sellOrders
      ensures Valid() && State() == Tick(old(State()), d)
      ensures q == Snapshot()
    {
      UpdateBooks(d);
      q := Snapshot();
    }
  }
}
