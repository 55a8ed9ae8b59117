/**
 * The server side of one streaming session (QuoteStreamHandler.kt): the
 * fresh simulator a session starts with, the filter on incoming frames and
 * the dispatch of control commands onto the session's simulator.
 */
module QuoteStream {
  import opened Wrappers
  import opened Models
  import opened Simulator

  /**
   * An incoming frame.  A text frame carries the outcome of decoding its text
   * as a command (the JSON decoder is not part of this model); every other
   * frame kind is `OtherFrame`.
   */
  datatype Frame = TextFrame(decoded: Option<RemoteCommand>) | OtherFrame

  /** The simulator state a command leads to (`handleCommand`); no command resizes or moves the blocks. */
  function Dispatch(s: SimState, command: RemoteCommand): (t: SimState)
    ensures t.totalCells == s.totalCells && t.maxHistory == s.maxHistory
    ensures t.buyStart == s.buyStart && t.spread == s.spread
  {
    match command.command
    case "setAggressiveness" =>
      if command.mode.Some? then s.(mode := FromLevel(command.mode.value)) else s
    case "startTrading" =>
      s.(active := true, bestBuys := [], bestSells := [], mids := [])
    case "stopTrading" =>
      s.(active := false, buy := Zeros(s.totalCells), sell := Zeros(s.totalCells),
         bestBuys := [], bestSells := [], mids := [])
    case _ => s
  }

  /**
   * What each command changes: a mode selects `FromLevel(mode)` and nothing
   * else (an unknown level selects CALM); a missing mode or an unrecognised
   * command changes nothing; starting clears only the histories; stopping
   * clears the books and the histories.
   */
  lemma DispatchEffects(s: SimState, command: RemoteCommand)
    ensures var t := Dispatch(s, command);
      && (command.command == "setAggressiveness" && command.mode.Some? ==>
            t.mode == FromLevel(command.mode.value) && t.(mode := s.mode) == s
            && (command.mode.value !in {1, 2, 3, 4, 5, 6} ==> t.mode == Calm))
      && (command.command == "setAggressiveness" && command.mode.None? ==> t == s)
      && (command.command == "startTrading" ==>
            t.active && t.mids == [] && t.bestBuys == [] && t.bestSells == []
            && t.buy == s.buy && t.sell == s.sell && t.mode == s.mode
            && t.buyStart == s.buyStart && t.spread == s.spread)
      && (command.command == "stopTrading" ==>
            !t.active && t.mids == [] && t.bestBuys == [] && t.bestSells == []
            && (forall p :: 0 <= p < s.totalCells ==> t.buy[p] == 0 && t.sell[p] == 0)
            && t.mode == s.mode && t.buyStart == s.buyStart && t.spread == s.spread)
      && (command.command !in {"setAggressiveness", "startTrading", "stopTrading"} ==> t == s)
  {
  }

  /** No command breaks the simulator's invariant. */
  lemma DispatchKeepsInv(s: SimState, command: RemoteCommand)
    requires Inv(s)
    ensures Inv(Dispatch(s, command))
  {
  }

  /** The simulator of a new session: default sizes, trading, empty histories. */
  method NewSession() returns (sim: QuoteSimulator)
    ensures fresh(sim) && fresh(sim.buyOrders) && fresh(sim.sellOrders)
    ensures sim.Valid() && sim.tradingActive
    ensures sim.bestBuyHistory == [] && sim.bestSellHistory == [] && sim.midHistory == []
    ensures sim.totalCells == 100 && sim.maxHistory == 100
  {
    sim := new QuoteSimulator(100, 100);
    sim.StartTrading();
  }

  /** Applies one command to the session's simulator. */
  method HandleCommand(sim: QuoteSimulator, command: RemoteCommand)
    requires sim.Valid()
    modifies sim, sim.buyOrders, sim.sellOrders
    ensures sim.Valid() && sim.State() == Dispatch(old(sim.State()), command)
  {
    match command.command
    case "setAggressiveness" =>
      if command.mode.Some? {
        sim.SetAggressiveness(FromLevel(command.mode.value));
      }
    case "startTrading" => sim.StartTrading();
    case "stopTrading" => sim.StopTrading();
    case _ =>
  }

  /** Dispatches a text frame that decoded to a command; drops every other frame. */
  method HandleFrame(sim: QuoteSimulator, frame: Frame)
    requires sim.Valid()
    modifies sim, sim.buyOrders, sim.sellOrders
    ensures sim.Valid()
    ensures sim.State() == match frame
      case TextFrame(Some(command)) => Dispatch(old(sim.State()), command)
      case _ => old(sim.State())
  {
    if frame.TextFrame? && frame.decoded.Some? {
      HandleCommand(sim, frame.decoded.value);
    }
  }
}
