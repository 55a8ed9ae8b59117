/**
 * The wire messages, trade sides and volatility modes shared by the server
 * and the client (Models.kt).
 */
module Models {
  import opened Wrappers

  /** One resting level of a book: a price cell and the quantity on it. */
  datatype OrderData = OrderData(price: int, qty: int)

  /** The three bounded histories as sent on the wire; every list defaults to empty. */
  datatype HistoryData = HistoryData(bestBuy: seq<int> := [], bestSell: seq<int> := [], mid: seq<int> := [])

  /** One snapshot of the book as sent on the wire; every field defaults to empty. */
  datatype QuoteMessage = QuoteMessage(
    buy: seq<OrderData> := [],
    sell: seq<OrderData> := [],
    history: HistoryData := HistoryData())

  /** A control command from a client; `mode` is absent unless given. */
  datatype RemoteCommand = RemoteCommand(command: string, mode: Option<int> := None)

  datatype TradeSide = Buy | Sell

  /** The text a side renders as (its `toString` and its serial name). */
  function SideName(side: TradeSide): (name: string)
    ensures name == "buy" <==> side == Buy
    ensures name == "sell" <==> side == Sell
  {
    match side
    case Buy => "buy"
    case Sell => "sell"
  }

  /** The six volatility regimes of the simulator. */
  datatype AggressivenessMode = Calm | ModeratelySharp | Sharp | Aggressive | Mixed | Panic

  /** The level number each mode is declared with. */
  function Level(mode: AggressivenessMode): (level: int)
    ensures 1 <= level <= 6
  {
    match mode
    case Calm => 1
    case ModeratelySharp => 2
    case Sharp => 3
    case Aggressive => 4
    case Mixed => 5
    case Panic => 6
  }

  /** The modes in declaration order, as `values()` lists them. */
  const Modes: seq<AggressivenessMode> := [Calm, ModeratelySharp, Sharp, Aggressive, Mixed, Panic]

  /** The first of `modes` whose level is `level`, if any (`firstOrNull`). */
  function FirstWithLevel(modes: seq<AggressivenessMode>, level: int): (r: Option<AggressivenessMode>)
    ensures r.Some? ==> r.value in modes && Level(r.value) == level
    ensures r.None? ==> forall m :: m in modes ==> Level(m) != level
  {
    if modes == [] then None
    else if Level(modes[0]) == level then Some(modes[0])
    else FirstWithLevel(modes[1..], level)
  }

  /** The mode declared with `level`, falling back to CALM for any other number. */
  function FromLevel(level: int): (mode: AggressivenessMode)
    ensures 1 <= level <= 6 ==> Level(mode) == level
    ensures !(1 <= level <= 6) ==> mode == Calm
  {
    match FirstWithLevel(Modes, level)
    case Some(m) => m
    case None =>
      assert 1 <= level <= 6 ==> Modes[level - 1] in Modes && Level(Modes[level - 1]) == level;
      Calm
  }

  /** Levels are distinct, so a mode's own level leads back to it. */
  lemma FromLevelOfLevel(mode: AggressivenessMode)
    ensures FromLevel(Level(mode)) == mode
  {
  }

  /** Every level outside 1..6, such as 0, 7 or 99, selects the calmest regime. */
  lemma FromLevelFallback(level: int)
    requires level < 1 || level > 6
    ensures FromLevel(level) == Calm && Level(FromLevel(level)) == 1
  {
  }

  /** The wire defaults: an empty history, an empty snapshot, a command without a mode. */
  lemma WireDefaults(command: string)
    ensures HistoryData() == HistoryData([], [], [])
    ensures QuoteMessage() == QuoteMessage([], [], HistoryData([], [], []))
    ensures RemoteCommand(command).mode == None
  {
  }
}
