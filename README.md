# Order-Book: a verified model of the simulator, the trade engine and the sign-in check

This project models the sequential core of the Order-Book trading demo:

- **The quote simulator** (`QuoteSimulator`) is a per-session state machine. It holds two integer order books of `totalCells` cells, a buy-block start and a spread, one of six volatility modes, a trading flag, and three parallel capped histories (best buy, best sell, mid). Each tick empties both books, moves the two 10-cell blocks by a mode-dependent random delta, refills them with random quantities, and records the best prices and their mid. `Simulator.QuoteSimulator` is a class over two `array<int>` books and `seq` histories. Its methods are proved against the pure `Simulator.Tick`, and the lemmas about `Tick` carry the invariants: the books never cross, and the histories stay equal-length, capped, FIFO and ordered (best buy ≤ mid < best sell).
- **The trade engine** (`TradingViewModel`, without its coroutines) holds the client's view of the book, capped local histories, at most one pending order and one open trade, a balance and a grow-only list of closed trades. An incoming snapshot runs four steps in a fixed order: replace the book, append the histories, fill a crossed pending order, then auto-close the open trade when its profit reaches its threshold. `Trading.TradingViewModel` is proved step by step against the pure `Trading.OnMessage`, which is built from the four step functions. The lemmas state the fill rule, the settlement rule and the balance accounting.
- **The session command dispatch** (`QuoteStreamHandler.handleCommand`): the three control commands act on a session's simulator, and anything else is ignored. The same dispatch is the local branch of the engine's `sendCommand`.
- **The mode table and wire shapes** (`Models.kt`): `fromLevel` falls back to CALM, and the message types have empty defaults.
- **The sign-in check** (`DefaultAuthService`) normalises the user name, looks it up among three fixed accounts, refuses an unknown user or a wrong password, and otherwise issues `tokenCount` tokens.

Random draws are parameters: `Simulator.Draws` holds the raw `nextInt` results of one tick, with their ranges as preconditions. MIXED's delay pick is a parameter too. The wall clock is a `now` parameter. Token signing is the function parameter `issueToken`.

The model follows the code as written, including these behaviours:

- PANIC moves the buy block by the calm delta in [-1, 1] (`Simulator.SwingByMode`).
- A local timestamp is appended on every message, even one without a mid. So the timestamp history is not kept aligned with the mid history (`Trading.OnMessageView`).
- A fill replaces any trade that is already open (`Trading.OnMessageFill`).
- The manual cancel-or-close clears the pending order and, in the same call, closes an open trade. It never credits the balance (`Trading.CancelOrCloseEffects`).

## Model

Source paths are relative to the repository root.

| member | source | states |
|---|---|---|
| `Models.SideName` | shared/src/commonMain/kotlin/com/grd/dom/trading/Models.kt:28-31 | a side renders as "buy" exactly when it is BUY and as "sell" exactly when it is SELL |
| `Models.Level` | shared/src/commonMain/kotlin/com/grd/dom/trading/Models.kt:40-46 | every mode is declared with a level in 1..6 |
| `Models.FirstWithLevel` | shared/src/commonMain/kotlin/com/grd/dom/trading/Models.kt:49 | the `firstOrNull` search returns a listed mode with the wanted level, or nothing only when no listed mode has it |
| `Models.FromLevel` | shared/src/commonMain/kotlin/com/grd/dom/trading/Models.kt:40-50 | a level in 1..6 selects the mode declared with that level; any other level selects CALM |
| `Models.FromLevelOfLevel` | shared/src/commonMain/kotlin/com/grd/dom/trading/Models.kt:40-49 | levels are distinct: `fromLevel(m.level) == m` for every mode |
| `Models.FromLevelFallback` | shared/src/commonMain/kotlin/com/grd/dom/trading/Models.kt:49 | every level outside 1..6 selects CALM, whose level is 1 |
| `Models.WireDefaults` | shared/src/commonMain/kotlin/com/grd/dom/trading/Models.kt:10-38 | a default history has three empty lists, a default message has empty books and an empty history, and a command's mode defaults to absent |
| `Simulator.Clamp` | shared/src/commonMain/kotlin/com/grd/dom/trading/QuoteSimulator.kt:61 | for lo ≤ hi the result lies in [lo, hi]; it is the value itself inside the range, lo below it and hi above it |
| `Simulator.SwingOf` | shared/src/commonMain/kotlin/com/grd/dom/trading/QuoteSimulator.kt:62-83 | the buy delta jumps exactly for AGGRESSIVE and for MIXED with branch 3; CALM, MODERATELY_SHARP and SHARP draw from `nextInt(2 * level + 1)`; PANIC swings narrowly |
| `Simulator.BuyDelta` | shared/src/commonMain/kotlin/com/grd/dom/trading/QuoteSimulator.kt:63-83 | the delta lies in [-1,1], [-2,2] or [-3,3] for the narrow, medium and wide swings; the jump swing lands the block in [10, 80 - spread] and moves a block already there by at most 10 |
| `Simulator.ModeDeltaRange` | shared/src/commonMain/kotlin/com/grd/dom/trading/QuoteSimulator.kt:63-83 | CALM and PANIC move the buy block by at most 1, MODERATELY_SHARP by 2 and SHARP by 3; AGGRESSIVE lands it in [10, 80 - spread]; MIXED moves by at most 3 unless it took the jump branch |
| `Simulator.SwingCovers` | shared/src/commonMain/kotlin/com/grd/dom/trading/QuoteSimulator.kt:64-66 | every delta in [-1, 1], [-2, 2] or [-3, 3] is produced by some draw of `nextInt(3)`, `nextInt(5)` or `nextInt(7)` respectively |
| `Simulator.SwingByMode` | shared/src/commonMain/kotlin/com/grd/dom/trading/QuoteSimulator.kt:63-83 | outside MIXED the branch draw is ignored; PANIC swings as CALM does; MIXED with branch b swings as the mode of level b + 1 |
| `Simulator.DelayMillis` | shared/src/commonMain/kotlin/com/grd/dom/trading/QuoteSimulator.kt:41-48 | every mode's delay is positive |
| `Simulator.DelayByLevel` | shared/src/commonMain/kotlin/com/grd/dom/trading/QuoteSimulator.kt:41-48 | outside MIXED the delay ignores the pick and strictly shrinks as the level grows; MIXED waits as long as one of the first four modes |
| `Simulator.DrawsFit` | shared/src/commonMain/kotlin/com/grd/dom/trading/QuoteSimulator.kt:62-106 | the draws of one tick lie in the ranges of their `nextInt` calls, so the raw buy draw is below 21 and, for a non-jump swing, the centred draw lies in [-3, 3] |
| `Simulator.SellStart` | shared/src/commonMain/kotlin/com/grd/dom/trading/QuoteSimulator.kt:103 | with a non-negative spread the sell block starts after the 10-cell buy block ends |
| `Simulator.Layout` | shared/src/commonMain/kotlin/com/grd/dom/trading/QuoteSimulator.kt:99-107 | a refilled book has `totalCells` cells, is zero outside its block, and every non-zero cell holds one of the drawn quantities |
| `Simulator.HighestPopulated` | shared/src/commonMain/kotlin/com/grd/dom/trading/QuoteSimulator.kt:109 | the result is the highest cell of the range with a positive quantity, or none when no cell there is positive |
| `Simulator.LowestPopulated` | shared/src/commonMain/kotlin/com/grd/dom/trading/QuoteSimulator.kt:110 | the result is the lowest cell of the range with a positive quantity, or none when no cell there is positive |
| `Simulator.BestBuy` | shared/src/commonMain/kotlin/com/grd/dom/trading/QuoteSimulator.kt:109 | the best buy is -1 exactly when no cell from 10 up is populated, and otherwise the highest populated cell |
| `Simulator.BestSell` | shared/src/commonMain/kotlin/com/grd/dom/trading/QuoteSimulator.kt:110 | the best sell is 91 when no cell from 10 up is populated, and otherwise the lowest populated cell; it is never below 10 |
| `Simulator.NextSpread` | shared/src/commonMain/kotlin/com/grd/dom/trading/QuoteSimulator.kt:94-95 | the new spread lies in [0, 5] and differs from a spread in [0, 5] by at most one |
| `Simulator.NextBuyStart` | shared/src/commonMain/kotlin/com/grd/dom/trading/QuoteSimulator.kt:93-97 | the new buy start lies in [10, 80 - new spread]; for a non-jump swing from a start inside the window it moves by at most 3 |
| `Simulator.Regenerate` | shared/src/commonMain/kotlin/com/grd/dom/trading/QuoteSimulator.kt:92-107 | the moved blocks stay in their window, each refilled book is populated only inside its block with quantities in [0, 10], and the mode, the flag and the histories are untouched |
| `Simulator.Record` | shared/src/commonMain/kotlin/com/grd/dom/trading/QuoteSimulator.kt:111-122 | the three histories stay equal-length and within `maxHistory`, and nothing but the histories changes |
| `Simulator.Tick` | shared/src/commonMain/kotlin/com/grd/dom/trading/QuoteSimulator.kt:87-123 | a tick keeps the sizes, the mode and the trading flag |
| `Simulator.BookNeverCrosses` | shared/src/commonMain/kotlin/com/grd/dom/trading/QuoteSimulator.kt:99-107 | under the invariant every populated buy price lies strictly below every populated sell price |
| `Simulator.BestPricesOrdered` | shared/src/commonMain/kotlin/com/grd/dom/trading/QuoteSimulator.kt:109-111 | when both best prices are recordable, best buy < best sell and best buy ≤ mid < best sell |
| `Simulator.LayoutInWindow` | shared/src/commonMain/kotlin/com/grd/dom/trading/QuoteSimulator.kt:99-107 | a refilled book holds quantities in [0, 10], non-zero only inside its 10-cell block |
| `Simulator.RecordKeepsHistories` | shared/src/commonMain/kotlin/com/grd/dom/trading/QuoteSimulator.kt:109-122 | recording keeps the three histories equal-length, within `maxHistory`, and each triple ordered 10 ≤ best buy ≤ mid < best sell ≤ 90 |
| `Simulator.TickKeepsInv` | shared/src/commonMain/kotlin/com/grd/dom/trading/QuoteSimulator.kt:87-123 | every tick keeps the spread in [0, 5], the buy start in [10, 80 - spread], each book inside its window and the histories well formed |
| `Simulator.InactiveTick` | shared/src/commonMain/kotlin/com/grd/dom/trading/QuoteSimulator.kt:88-91 | with trading off a tick zeroes both books and leaves the start, the spread, the mode and the histories unchanged |
| `Simulator.ActiveTickSpread` | shared/src/commonMain/kotlin/com/grd/dom/trading/QuoteSimulator.kt:92-97 | an active tick keeps the mode and the flag and moves the spread by at most one, within [0, 5] |
| `Simulator.ActiveTickBooks` | shared/src/commonMain/kotlin/com/grd/dom/trading/QuoteSimulator.kt:99-107 | after an active tick a cell is populated exactly when it lies in its side's new block and its draw is positive |
| `Simulator.RecordFifo` | shared/src/commonMain/kotlin/com/grd/dom/trading/QuoteSimulator.kt:111-122 | a triple is appended exactly when best buy ≥ 10 and best sell ≤ 90, and the histories then hold the newest min(n + 1, maxHistory) triples in order; otherwise nothing changes |
| `Simulator.LevelsListed` | shared/src/commonMain/kotlin/com/grd/dom/trading/QuoteSimulator.kt:126-133 | the snapshot side lists exactly the cells of [10, totalCells) with a positive quantity, with that quantity, in strictly ascending price order |
| `Simulator.Levels` | shared/src/commonMain/kotlin/com/grd/dom/trading/QuoteSimulator.kt:126-133 | every listed level lies in the scanned range and has a positive quantity |
| `Simulator.ClearCells` | shared/src/commonMain/kotlin/com/grd/dom/trading/QuoteSimulator.kt:51-52 | `fill(0)` leaves every cell zero |
| `Simulator.FillBlock` | shared/src/commonMain/kotlin/com/grd/dom/trading/QuoteSimulator.kt:99-102 | writing a block into an empty book gives the drawn quantities in the block and zero elsewhere |
| `Simulator.QuoteSimulator.constructor` | shared/src/commonMain/kotlin/com/grd/dom/trading/QuoteSimulator.kt:7-22 | a new simulator has start 50, spread 0, CALM, trading on, empty books and histories, and satisfies the invariant |
| `Simulator.QuoteSimulator.SetAggressiveness` | shared/src/commonMain/kotlin/com/grd/dom/trading/QuoteSimulator.kt:24-26 | only the mode changes |
| `Simulator.QuoteSimulator.StartTrading` | shared/src/commonMain/kotlin/com/grd/dom/trading/QuoteSimulator.kt:28-31 | trading turns on and only the histories are emptied |
| `Simulator.QuoteSimulator.StopTrading` | shared/src/commonMain/kotlin/com/grd/dom/trading/QuoteSimulator.kt:33-37 | trading turns off and both books and the histories are emptied |
| `Simulator.QuoteSimulator.IsTrading` | shared/src/commonMain/kotlin/com/grd/dom/trading/QuoteSimulator.kt:39 | reports the trading flag of the state |
| `Simulator.QuoteSimulator.NextDelayMillis` | shared/src/commonMain/kotlin/com/grd/dom/trading/QuoteSimulator.kt:41-48 | the wait is the current mode's positive delay |
| `Simulator.QuoteSimulator.ClearBooks` | shared/src/commonMain/kotlin/com/grd/dom/trading/QuoteSimulator.kt:50-53 | both books become all zero |
| `Simulator.QuoteSimulator.ClearHistories` | shared/src/commonMain/kotlin/com/grd/dom/trading/QuoteSimulator.kt:55-59 | the three histories become empty and the block, the mode and the flag stay |
| `Simulator.QuoteSimulator.UpdateBooks` | shared/src/commonMain/kotlin/com/grd/dom/trading/QuoteSimulator.kt:87-123 | the new state is the tick of the old one, and the invariant is kept |
| `Simulator.QuoteSimulator.RegenerateBooks` | shared/src/commonMain/kotlin/com/grd/dom/trading/QuoteSimulator.kt:92-107 | books, start and spread become those of the regenerated state; the histories are untouched |
| `Simulator.QuoteSimulator.MoveBlocks` | shared/src/commonMain/kotlin/com/grd/dom/trading/QuoteSimulator.kt:93-97 | the spread becomes the clamped moved spread and the start the clamped moved start |
| `Simulator.QuoteSimulator.RecordBest` | shared/src/commonMain/kotlin/com/grd/dom/trading/QuoteSimulator.kt:109-122 | the histories become those of recording the two best prices |
| `Simulator.QuoteSimulator.Snapshot` | shared/src/commonMain/kotlin/com/grd/dom/trading/QuoteSimulator.kt:125-140 | each side lists exactly the populated cells from 10 up, in ascending order, and the history is the three histories as they are |
| `Simulator.QuoteSimulator.NextQuote` | shared/src/commonMain/kotlin/com/grd/dom/trading/QuoteSimulator.kt:142-145 | one tick, then the snapshot of its result |
| `QuoteStream.DispatchEffects` | server/src/main/kotlin/com/grd/dom/quote/QuoteStreamHandler.kt:56-62 | a mode selects `fromLevel(mode)` and changes nothing else; a missing mode or an unknown command changes nothing; start clears only the histories; stop clears books and histories |
| `QuoteStream.DispatchKeepsInv` | server/src/main/kotlin/com/grd/dom/quote/QuoteStreamHandler.kt:56-62 | no command breaks the simulator's invariant |
| `QuoteStream.Dispatch` | server/src/main/kotlin/com/grd/dom/quote/QuoteStreamHandler.kt:56-62 | no command changes the sizes, the buy start or the spread |
| `QuoteStream.NewSession` | server/src/main/kotlin/com/grd/dom/quote/QuoteStreamHandler.kt:29 | a session's simulator has the default sizes, trades, and has empty histories |
| `QuoteStream.HandleCommand` | server/src/main/kotlin/com/grd/dom/quote/QuoteStreamHandler.kt:56-62 | the simulator's new state is the dispatch of the command on the old one |
| `QuoteStream.HandleFrame` | server/src/main/kotlin/com/grd/dom/quote/QuoteStreamHandler.kt:40-47 | only a text frame that decodes to a command is dispatched; any other frame leaves the simulator unchanged |
| `Trading.AppendWithLimit` | composeApp/src/commonMain/kotlin/com/grd/dom/model/trading/TradingViewModel.kt:198-201 | the result has min(n + 1, limit) elements and, for a positive limit, ends with the new value |
| `Trading.AppendWithLimitKeepsNewest` | composeApp/src/commonMain/kotlin/com/grd/dom/model/trading/TradingViewModel.kt:198-201 | the result is the newest min(n + 1, limit) elements of the list with the value appended |
| `Trading.AppendWithLimitEvictsOldest` | composeApp/src/commonMain/kotlin/com/grd/dom/model/trading/TradingViewModel.kt:198-201 | below the cap the value is simply appended; at the cap exactly the oldest element is dropped |
| `Trading.AppendLatest` | composeApp/src/commonMain/kotlin/com/grd/dom/model/trading/TradingViewModel.kt:159-165 | an empty incoming list leaves the history as it is; otherwise the history ends with the incoming list's last value, and a capped history stays capped |
| `Trading.ComputeProfit` | composeApp/src/commonMain/kotlin/com/grd/dom/model/trading/TradingViewModel.kt:215-218 | the profit is the side's direction (+1 buy, -1 sell) times the price move times the lots |
| `Trading.ProfitSidesOpposite` | composeApp/src/commonMain/kotlin/com/grd/dom/model/trading/TradingViewModel.kt:215-218 | at equal prices and lots a sell earns exactly the negation of a buy |
| `Trading.Associate` | composeApp/src/commonMain/kotlin/com/grd/dom/model/trading/TradingViewModel.kt:156-157 | the keys are exactly the listed prices, each value is the quantity of a level listed at that price, and on a repeated price the last level wins |
| `Trading.BookViewOfListing` | composeApp/src/commonMain/kotlin/com/grd/dom/model/trading/TradingViewModel.kt:156-157 | the book view of a snapshot side holds exactly the simulator's populated cells, each with its quantity |
| `Trading.Crossed` | composeApp/src/commonMain/kotlin/com/grd/dom/model/trading/TradingViewModel.kt:168-172 | a buy limit equal to a sell price in the book crosses, and a sell limit equal to a buy price does; nothing crosses against an empty opposite side |
| `Trading.Opened` | composeApp/src/commonMain/kotlin/com/grd/dom/model/trading/TradingViewModel.kt:174-181 | the new trade has zero profit at its own order price, the order's side, lots and threshold, and the given open time and index |
| `Trading.CrossedMonotone` | composeApp/src/commonMain/kotlin/com/grd/dom/model/trading/TradingViewModel.kt:168-172 | a crossed buy stays crossed at any higher limit and a crossed sell at any lower one; nothing crosses against an empty opposite side |
| `Trading.ReplaceBook` | composeApp/src/commonMain/kotlin/com/grd/dom/model/trading/TradingViewModel.kt:156-157 | the book view's keys become the message's prices and nothing else changes |
| `Trading.AppendHistories` | composeApp/src/commonMain/kotlin/com/grd/dom/model/trading/TradingViewModel.kt:159-165 | the caps are kept, `now` becomes the newest timestamp, and only the histories and the latest mid change |
| `Trading.FillPending` | composeApp/src/commonMain/kotlin/com/grd/dom/model/trading/TradingViewModel.kt:168-185 | either nothing changes or a pending order is consumed and a trade is opened; only the order and the trade can change |
| `Trading.Close` | composeApp/src/commonMain/kotlin/com/grd/dom/model/trading/TradingViewModel.kt:132-144 | exactly one record is appended, with the given result and closed at the latest mid or else at the open price; no trade stays open; nothing else changes |
| `Trading.AutoClose` | composeApp/src/commonMain/kotlin/com/grd/dom/model/trading/TradingViewModel.kt:188-195 | either nothing changes or the open trade is closed with one record appended; only the trade, the balance and the records can change |
| `Trading.OnMessage` | composeApp/src/commonMain/kotlin/com/grd/dom/model/trading/TradingViewModel.kt:155-196 | the caps are kept, the book view's keys are the message's prices, and the feed choice and the selected level are untouched |
| `Trading.CancelOrClose` | composeApp/src/commonMain/kotlin/com/grd/dom/model/trading/TradingViewModel.kt:146-153 | the pending order is cleared, the balance is untouched, and at most one record is appended |
| `Trading.OnMessageView` | composeApp/src/commonMain/kotlin/com/grd/dom/model/trading/TradingViewModel.kt:156-165 | the book is replaced; each history whose incoming list is non-empty becomes the old history with that list's last value appended (newest 100 kept), and otherwise stays; the latest mid follows the last incoming mid; `now` is appended to the timestamps on every message; the caps hold |
| `Trading.OnMessageFill` | composeApp/src/commonMain/kotlin/com/grd/dom/model/trading/TradingViewModel.kt:168-185 | a pending order fills exactly when the new book crosses it; the trade then takes its price, lots and threshold and the post-append mid count, and replaces any open trade; otherwise the order stays pending |
| `Trading.AutoCloseSettles` | composeApp/src/commonMain/kotlin/com/grd/dom/model/trading/TradingViewModel.kt:188-195 | when the profit at the latest mid reaches the threshold, the balance rises by that profit, one record closed at that mid is appended and no trade stays open; otherwise nothing changes |
| `Trading.OnMessageBalance` | composeApp/src/commonMain/kotlin/com/grd/dom/model/trading/TradingViewModel.kt:155-196 | over a message the records only grow, by at most one, and the balance moves by exactly the new record's result, whose size reaches the trade's threshold |
| `Trading.AutoCloseExample` | composeApp/src/commonMain/kotlin/com/grd/dom/model/trading/TradingViewModel.kt:188-195 | a buy opened at 40 with 2 lots and threshold 10 settles at mid 46 with result 12, crediting 12 |
| `Trading.CancelOrCloseEffects` | composeApp/src/commonMain/kotlin/com/grd/dom/model/trading/TradingViewModel.kt:146-153 | the pending order is always cleared and the balance never moves; an open trade with a known mid is closed with its computed profit; with nothing pending or open nothing changes |
| `Trading.TradingViewModel.constructor` | composeApp/src/commonMain/kotlin/com/grd/dom/model/trading/TradingViewModel.kt:26-45 | a new engine uses the remote feed, has empty views, CALM selected, balance 1000, nothing pending or open, and a valid local simulator |
| `Trading.TradingViewModel.PlaceOrder` | composeApp/src/commonMain/kotlin/com/grd/dom/model/trading/TradingViewModel.kt:124-126 | the order replaces any pending one; nothing else changes |
| `Trading.TradingViewModel.OpenTrade` | composeApp/src/commonMain/kotlin/com/grd/dom/model/trading/TradingViewModel.kt:128-130 | the trade becomes the open one; nothing else changes |
| `Trading.TradingViewModel.UpdateUserBalance` | composeApp/src/commonMain/kotlin/com/grd/dom/model/trading/TradingViewModel.kt:120-122 | the balance becomes the given one; nothing else changes |
| `Trading.TradingViewModel.CloseTrade` | composeApp/src/commonMain/kotlin/com/grd/dom/model/trading/TradingViewModel.kt:132-144 | exactly one record is appended, closed at the latest mid or else at the open price, and no trade stays open |
| `Trading.TradingViewModel.CancelOrderOrCloseTradeEarly` | composeApp/src/commonMain/kotlin/com/grd/dom/model/trading/TradingViewModel.kt:146-153 | the new state is the manual cancel-or-close of the old one |
| `Trading.TradingViewModel.HandleMessage` | composeApp/src/commonMain/kotlin/com/grd/dom/model/trading/TradingViewModel.kt:155-196 | the new state is the four-step processing of the message, and the history caps hold |
| `Trading.TradingViewModel.ReceiveSnapshot` | composeApp/src/commonMain/kotlin/com/grd/dom/model/trading/TradingViewModel.kt:156-165 | the book is replaced and the histories are appended |
| `Trading.TradingViewModel.AppendLatestHistories` | composeApp/src/commonMain/kotlin/com/grd/dom/model/trading/TradingViewModel.kt:159-165 | each history takes the last incoming value, when there is one, and the timestamps take `now` |
| `Trading.TradingViewModel.FillIfCrossed` | composeApp/src/commonMain/kotlin/com/grd/dom/model/trading/TradingViewModel.kt:168-185 | a crossed pending order becomes the open trade |
| `Trading.TradingViewModel.AutoCloseIfReached` | composeApp/src/commonMain/kotlin/com/grd/dom/model/trading/TradingViewModel.kt:188-195 | an open trade whose profit reaches its threshold is settled |
| `Trading.TradingViewModel.SendCommand` | composeApp/src/commonMain/kotlin/com/grd/dom/model/trading/TradingViewModel.kt:102-118 | with the local feed the simulator takes the session dispatch of the command, and a given mode is also stored raw as the selected level; nothing else changes |
| `Auth.TrimStart` | server/src/main/kotlin/com/grd/dom/auth/AuthManager.kt:61 | the result is a suffix that does not start with whitespace, and everything dropped is whitespace |
| `Auth.TrimEnd` | server/src/main/kotlin/com/grd/dom/auth/AuthManager.kt:61 | the result is a prefix that does not end with whitespace, and everything dropped is whitespace |
| `Auth.IsWhitespace` | server/src/main/kotlin/com/grd/dom/auth/AuthManager.kt:61 | the space, tab, line feed and carriage return are whitespace, and no ASCII letter or digit is |
| `Auth.Trim` | server/src/main/kotlin/com/grd/dom/auth/AuthManager.kt:61 | the result is no longer than the input and has no whitespace at either end |
| `Auth.TrimKeepsMiddle` | server/src/main/kotlin/com/grd/dom/auth/AuthManager.kt:61 | `trim` keeps a contiguous part of the input with only whitespace on either side of it |
| `Auth.LowerChar` | server/src/main/kotlin/com/grd/dom/auth/AuthManager.kt:61 | a capital A-Z becomes its small letter, every other character is kept, so no capital A-Z remains and whitespace-ness is unchanged |
| `Auth.Lowercase` | server/src/main/kotlin/com/grd/dom/auth/AuthManager.kt:61 | the result has the same length, no capital A-Z, and whitespace in the same places |
| `Auth.RemoveSpaces` | server/src/main/kotlin/com/grd/dom/auth/AuthManager.kt:61 | the result holds exactly the characters of the input other than the space, and keeps a non-space first or last character in place |
| `Auth.RemoveSpacesCounts` | server/src/main/kotlin/com/grd/dom/auth/AuthManager.kt:61 | every space is dropped and every other character is kept exactly as often as it occurs |
| `Auth.RemoveSpacesConcat` | server/src/main/kotlin/com/grd/dom/auth/AuthManager.kt:61 | removing spaces distributes over concatenation, so the kept characters stay in order |
| `Auth.Normalize` | server/src/main/kotlin/com/grd/dom/auth/AuthManager.kt:60-61 | a normalised name has no space, no capital A-Z, and no whitespace at either end |
| `Auth.RemoveSpacesKeepsSpaceless` | server/src/main/kotlin/com/grd/dom/auth/AuthManager.kt:61 | removing spaces from a string without spaces changes nothing |
| `Auth.NormalizeIdempotent` | server/src/main/kotlin/com/grd/dom/auth/AuthManager.kt:60-61 | normalising twice is normalising once |
| `Auth.NormalizeIgnoresCase` | server/src/main/kotlin/com/grd/dom/auth/AuthManager.kt:60-61 | lowering the typed name first does not change its account key |
| `Auth.NormalizeIgnoresSpace` | server/src/main/kotlin/com/grd/dom/auth/AuthManager.kt:60-61 | a space inserted anywhere in the typed name does not change its account key |
| `Auth.TrimAroundSpace` | server/src/main/kotlin/com/grd/dom/auth/AuthManager.kt:61 | trimming a name with an inserted space gives the same as without it, or the same two kept parts with the space between them |
| `Auth.InnerSpaceRemoved` | server/src/main/kotlin/com/grd/dom/auth/AuthManager.kt:61 | a space between two parts disappears once lowered and space-stripped |
| `Auth.NormalizeExample` | server/src/main/kotlin/com/grd/dom/auth/AuthManager.kt:60-61 | " User 1 " normalises to "user1" |
| `Auth.Accounts` | server/src/main/kotlin/com/grd/dom/auth/AuthManager.kt:44-46 | the accounts are exactly user1, user2 and user3, each named by its key and with the service's password |
| `Auth.Message` | server/src/main/kotlin/com/grd/dom/auth/AuthManager.kt:50-52 | the message ends with the name as typed in quotes, and starts "U" for an unknown user and "I" for an incorrect password |
| `Auth.Authenticate` | server/src/main/kotlin/com/grd/dom/auth/AuthManager.kt:48-58 | an unknown normalised name fails as an unknown user, and a known one with a different password fails as an incorrect password, both naming the user as typed; otherwise the result is the normalised name with max(0, tokenCount) tokens, token i issued for index i |
| `Auth.DefaultSignInExample` | server/src/main/kotlin/com/grd/dom/auth/AuthManager.kt:39-61 | with the defaults, " User 1 " and "123456" sign in as user1 with nine tokens, and any other password is refused as incorrect |

## Left out

- Coroutines and session lifecycles are not modelled. This covers `connect`, `disconnect`, `clear`, the local and remote feed loops and the server session's sender job. Only the per-frame step of the server's receive loop is modelled (`QuoteStream.HandleFrame`).
- The WebSocket and HTTP clients, the JSON codec and the Compose UI are not part of this model. That includes `formatTimestamp` and the UI-only fields `isConnected`, `autoScroll`, `smallFont` and `serverEndpoint`. A decoded frame is given as an optional command.
- JWT signing and expiry in `JwtTokenProvider.issueToken` depend on a signing library and the wall clock. That function is the parameter `issueToken`.
- Randomness and time are parameters. The draws of one tick are a `Draws` value, and MIXED's delay pick is an index. Each engine operation reads the clock once (`now`). The source reads it up to three times in one message: for the timestamp, the open time and the close time.
- The remote branch of `sendCommand` sends the command to the server. The model states only that nothing local changes.
- Trading.ComputeProfit: Kotlin `Int` arithmetic wraps at 32 bits. The model uses unbounded integers here, for the balance, and for the prices and lots, so overflow on extreme inputs is not captured.
- Auth.Lowercase: only A-Z are lowered. Kotlin's `lowercase()` also lowers non-ASCII letters. No non-ASCII character lowercases to one of the letters or digits in the account names, so which account matches, and which error is returned, is unaffected. The error message carries the name as typed, which is unaffected too.
- Auth.Message gives the exception texts. The exception types themselves (`InvalidCredentialsException`) become the `AuthError` variants.
- Simulator.QuoteSimulator.constructor: requires at least 100 cells and a history cap of at least 1. With fewer cells a tick writes past the end of the arrays. With a cap of 0 the first recorded triple calls `removeFirst` on an empty deque. The source fails in both cases, and the model does not describe those failures.
- Trading.TradingViewModel.constructor: the local simulator gets the default sizes (100 cells, cap 100). The simulator is a separate object, so the engine's `Valid` covers only the engine's own fields. `SendCommand` requires and keeps the simulator's `Valid` separately.
