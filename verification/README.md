# ExchangeLab, verified

A Dafny model of the ExchangeLab exchange: its price-time-priority matching, its risk limits, its
journal and recovery, its Level-3 market-data feed, the lock-free queues and the publisher thread
behind the feed, its binary and FIX codecs, the FIX gateway's order accounting and its latency
percentiles. The model does what the C++ does, branch by branch, and states what the exchange
promises as theorems over every input, every run and every interleaving.

`dafny verify dfyconfig.toml` checks everything.

## What is proved

**Over every run of the exchange.** Whatever clients send, in any order, self-trades included:
books, owners, working orders and cached aggregates mirror each other; every position and open-order
limit holds; replaying the journal rebuilds exactly the live books, also after a restart that goes
on appending; a listener that applies the feed event by event always shows the live books and their
best prices; the positions of all clients in a symbol sum to zero. An order is accepted exactly when
it is readable, its id is not at rest, no kill switch is on and it fits every limit
(`AcceptanceLaws.NewOrderAcceptedExactly`), and what it then does is told from the fields of its
message: whose trades, at which prices, how much, what comes to rest, and which connections hear of
it (`EntryLaws.NewOrderDoesWhatItSays`). A reply says success exactly when the command was
journaled and took effect. The classes that keep 32-bit level totals ask that no total wraps; runs
of connected clients, also after a restart, meet that as long as the number of sessions times the
open-quantity limit fits 32 bits beside the quantity recovered at any one price
(`RoomLaws.StartedRunHasRoom`).

**For every order and book.** The nested, cached, indexed book of the implementation refines one
flat queue per side. What may become of an order is stated by the prices, quantities and places of the
orders at rest, and exactly one result meets it (`TradingLaws.OnlyOneWayToCarryOut`). Matching
conserves quantity, is symmetric between buying and selling, and fill-or-kill is all or nothing.

**For every FIX session.** Reported quantities add up to the order's; every request is answered, over
every run from the one to the other, under its own ClOrdID and by what became of the order
(`ResponseLaws.CancelIsAnswered` and its companions); what is turned away is turned away for exactly
one reason.

**For every interleaving.** The single-producer single-consumer ring is a bounded FIFO even when its
64-bit positions wrap, and its threads are never in the same slot. The publisher never sleeps
through work, serves every queue within 256 of its steps, sends everything once and in order, and
drains on stop what was given to it before.

**For every byte stream.** Where each field of a message stands and what its bytes stand for is stated
byte by byte; encoders and decoders are inverse to each other; what is sent is received however the
stream is cut; a cut journal replays exactly when it should; a FIX message is accepted, and rejected
for each of its reasons, exactly when its bytes say so, and one wrong byte is always detected.

**For every sample sequence.** A reported latency percentile is at least the exact one and less than
twice it.

Where a promise does not hold in general, exactly when it does is proved, and inputs for which it
fails are shown:

- Everything that went into a queue is sent on before the publisher thread exits, in every way on
  from the moment stop begins, if and only if no call is then between its running test and its push
  (`PublisherExits.StopDrainsExactly`). From every state with such a call there is a way on in which
  it answers true and its datagram is never sent (`PublisherExits.LateSendIsLost`).
- A FIX order keeps CumQty + LeavesQty = OrderQty whenever it works if and only if each acknowledged
  replacement of it finds the cumulative quantity it was worked out from, whatever becomes of the
  session's other orders (`GatewayLaws.AlwaysLevelExactly`). A replacement does so, over every run from
  its request to its response, if and only if nothing was reported as executed for the order meanwhile
  (`GatewayLaws.ReplacementAddsUp`, `GatewayLaws.RaceLeavesUnequal`).
- The messages taken from a connection do not depend on how its bytes are cut if and only if they hold
  no bad header, or the first one ends with the very last byte (`Framing.CutFreeExactly`,
  `Framing.BadHeaderMatters`).
- What is extracted from a FIX connection does not depend on the cut if and only if no message has more
  than one byte in front of its prefix, unless what stands there is invalid
  (`FixStreams.CutFreeExactly`). Two stray bytes are enough: with nine bytes of the prefix they are
  more than extraction waits for (`FixStreams.NoiseMatters`).
- A journal that replays goes on replaying after a command if and only if it ended at a record
  boundary; behind a torn length, which replay takes for a normal end, it does not
  (`RecoveryLaws.GoesOnReplayingExactly`, `Journal.TornIsAccepted`).
- FIX fields survive encoding and parsing if and only if the wire can carry their tags and values
  (`FixLaws.RoundTrip`).

## How it is organised

Each implementation file has a specification in functions, a class or a machine that is proved to
follow it, and laws about it.

| files | what they model |
|---|---|
| `ExchangeTypes`, `PriceTime` | orders, trades, and matching on one flat priority queue per side: `Process` (include/exchange/matching_engine.hpp:40-89), `Cancel` (include/exchange/order_book.hpp:124-185), `Replace` (include/exchange/matching_engine.hpp:122-159) |
| `SweepLaws`, `BookLaws`, `MatchingLaws`, `TradingLaws`, `MirrorLaws`, `LevelLaws` | laws of matching and of price levels |
| `PriceLevel`, `BookSide`, `OrderBook`, `MatchingEngine`, `BookTable` | the stored book: levels with cached totals, two ordered sides, the id index, the matching loops, one book per symbol |
| `Risk`, `RiskLaws`, `LimitLaws`, `RejectionLaws`, `RiskEngine` | the risk checks and bookkeeping (src/risk_engine.cpp:66-886), what the caches mean, the limits, the reasons, the engine object |
| `Exchange` | the exchange as one value and one step per message: `NewOrder` (src/exchange_server.cpp:727-1144), `CancelOrder` (src/exchange_server.cpp:1146-1272), `ReplaceOrder` (src/exchange_server.cpp:1274-1656), and the events each announces |
| `ExchangeLaws`, `RunLaws`, `RecoveryLaws`, `FeedLaws`, `BalanceLaws`, `RoomLaws` | what every step and every run keeps |
| `EntryLaws`, `AcceptanceLaws` | what a command does and when it is accepted, from the fields of its message |
| `ExchangeServer` | the server object with its handlers, proved to take the steps of `Exchange` |
| `Wire`, `WireLaws`, `LayoutLaws`, `Codec`, `Chunks`, `Framing` | the binary protocol, its cursor encoders and decoders, and the framing of a connection |
| `Journal`, `Replay`, `Replayer` | the journal file, what replaying it means (src/replay.cpp:80-331), and the replayer object |
| `RingPositions`, `SpscRing` | wrapping positions; the ring as an interleaved machine and as an object |
| `Publisher`, `PublisherLaws`, `PublisherSends`, `PublisherRuns`, `PublisherExit` | senders, publisher thread, stop and restart as an interleaved machine (src/multicast_publisher.cpp:49-463) |
| `Fix`, `FixLaws`, `FixFormat`, `FixStream`, `FixCodec` | the FIX codec (src/fix.cpp:15-382), its laws, its bytes, streams, and the codec's loops |
| `Gateway`, `GatewayLaws`, `ResponseLaws`, `GatewaySession` | one FIX session's order state (src/fix_gateway.cpp:626-1403), what it keeps, what the client is told, and the session object |
| `LatencyHistogram` | the latency histogram and its percentiles |

Two conventions run through the files. A class carries ghost fields with the flat or abstract
picture of its contents, `Valid()` ties the two together, and each method says what it makes of the
picture. A machine is a function from a state and an action to the next state, so that every
interleaving is a sequence of actions. The functions a class is proved to follow are themselves pinned
by laws that do not name them: a law speaks of message fields, bytes, prices and quantities, and is
an if-and-only-if or leaves one result.

In each step of the server one command and its events are atomic, as they are while a journal is
open and its lock is held (src/exchange_server.cpp:650-667).

## Model

| member | source | states |
|---|---|---|
| SweepLaws.SweepIsTheOnlyPriorityMatch | include/exchange/matching_engine.hpp:212-330 | trades and survivors are those of the matching loop if and only if they meet price-time priority, stated without the loop: best price first, first come first served, each trade at the resting price, stopping only at the limit price or an exhausted side |
| SweepLaws.SweepConserves | include/exchange/matching_engine.hpp:217-262 | incoming quantity is traded quantity plus what is left, and the opposite side shrinks by exactly what was traded |
| MatchingLaws.ProcessConserves | include/exchange/matching_engine.hpp:40-89 | for a whole order: traded, rested and discarded quantity add up to the incoming one, and the total at rest changes accordingly |
| MatchingLaws.FillOrKillIsAllOrNothing | include/exchange/matching_engine.hpp:63-72 | a fill-or-kill order trades its whole quantity exactly when that much rests at prices it crosses, and otherwise leaves the book unchanged without trades |
| BookSides.BookSide.ExecutableQuantity | include/exchange/order_book.hpp:307-366 | the early-exit sum over level totals is exact while it is short of the order and reaches the order exactly when the side does |
| MirrorLaws.ProcessIsMirrorSymmetric | include/exchange/matching_engine.hpp:212-330 | selling is buying with prices negated and sides exchanged, trades and book included |
| MatchingLaws.ProcessKeepsWellFormed | include/exchange/matching_engine.hpp:40-89 | a well-formed book stays so: sorted, uncrossed, unique ids on both sides together, only positive good-till-cancel limit orders |
| MatchingLaws.ReplaceKeepsWellFormed | include/exchange/matching_engine.hpp:122-159 | a well-formed book stays so under a replacement |
| MatchingLaws.CommandsKeepWellFormed | include/exchange/matching_engine.hpp:40-159 | from an empty book, every sequence of process, cancel and replace leaves a well-formed book |
| MatchingLaws.ProcessKeepsTimePriority | include/exchange/matching_engine.hpp:217-262 | orders that survive matching keep their order in the queue |
| MatchingLaws.ReplacementGoesToTheTail | include/exchange/matching_engine.hpp:122-159 | a replaced order that rests stands behind every order at its price |
| TradingLaws.OnlyOneWayToCarryOut | include/exchange/matching_engine.hpp:40-89 | for any order of any kind, the result is the only one in which it trades in price-time priority with all that rests at prices it accepts, nothing at all if it is fill-or-kill and cannot reach its quantity, and only a good-till-cancel limit order rests, with what it did not trade, behind all at its price |
| TradingLaws.TradesAllItCan | include/exchange/matching_engine.hpp:40-89 | an order trades its quantity or all that rests at prices it accepts, whichever is less, and nothing if it is fill-or-kill and cannot reach its quantity |
| TradingLaws.OnlyOneWayToReplace | include/exchange/matching_engine.hpp:122-159 | a replacement is the order of the same id and side with the new price, quantity and time, put to the book without the old one, and nothing else |
| TradingLaws.NothingToReplace | include/exchange/matching_engine.hpp:122-159 | a replacement without a quantity is refused, and one of an order that does not rest does nothing |
| TradingLaws.CancelTakesOne | include/exchange/order_book.hpp:124-185 | a cancel takes away the order with the id, if there is one, and leaves all others where they stood |
| MatchingLaws.CancelRemovesExactly | include/exchange/order_book.hpp:124-185 | cancelling removes exactly the named order: index, queues and well-formedness |
| MatchingLaws.ProcessOnIndex | include/exchange/matching_engine.hpp:40-89 | matching seen on the id index: the resting orders consumed by the trades, plus the remainder if it rests |
| BookLaws.ByIdIsBijective | include/exchange/order_book.hpp:386-388 | in a coherent book the id index and the queued orders correspond one to one |
| BookLaws.SideOkMeans | include/exchange/order_book.hpp:28-40 | the front-to-back reading of a sound side is the same as sortedness, uniqueness and restability over all positions |
| BookLaws.InsertJoinsItsTail | include/exchange/price_level.hpp:79-84 | an order joins its price behind all that were there |
| BookLaws.RemoveSplits | include/exchange/price_level.hpp:87-102 | removal takes one order out of the queue and leaves the order of the rest |
| PriceLevels.PriceLevel.AddOrder | include/exchange/price_level.hpp:66-85 | appends to the list and keeps the cached total the sum of the list; the two exceptions are a false result |
| PriceLevels.PriceLevel.Erase | include/exchange/price_level.hpp:87-102 | removes the order at a position and its quantity from the cached total |
| PriceLevels.PriceLevel.FillFront | include/exchange/price_level.hpp:104-131 | executes against the first order, dropping it when filled, with the three exceptions as a false result |
| LevelLaws.JoinLevel | include/exchange/order_book.hpp:75-122 | appending to the level at a price is insertion in the flat queue |
| LevelLaws.OpenLevel | include/exchange/order_book.hpp:75-122 | opening a level at its ordered position is insertion in the flat queue |
| LevelLaws.LeaveLevel | include/exchange/order_book.hpp:141-185 | erasing inside a level, and the level when empty, is removal from the flat queue |
| LevelLaws.FillBestLevel | include/exchange/matching_engine.hpp:250-262 | filling the front of the best level, and dropping the level when empty, is filling the front of the flat queue |
| LevelLaws.BestLevelTotal | src/exchange_server.cpp:2100-2134 | the cached total of the best level is all that rests at the best price |
| BookSides.BookSide.Add | include/exchange/order_book.hpp:75-122 | the stored side after adding an order is the flat insertion |
| BookSides.BookSide.Erase | include/exchange/order_book.hpp:141-185 | the stored side after erasing is the flat removal, empty levels gone |
| BookSides.BookSide.FillBest | include/exchange/order_book.hpp:368-384 | the stored side after an execution is the flat fill, the best level dropped if empty |
| OrderBooks.OrderBook.AddOrder | include/exchange/order_book.hpp:52-122 | adds to the right side and to the id index, or refuses for a known id, a market order or no quantity |
| OrderBooks.OrderBook.ExtractOrder | include/exchange/order_book.hpp:128-185 | takes out exactly the named order and returns it as it rested |
| OrderBooks.OrderBook.CancelOrder | include/exchange/order_book.hpp:124-126 | true exactly when the id rests; the book without it |
| OrderBooks.OrderBook.FindOrder | include/exchange/order_book.hpp:193-207 | the resting order under an id, through the index |
| OrderBooks.OrderBook.ExecutableQuantity | include/exchange/order_book.hpp:307-366 | looks at the opposite side; exact while short of the order, and reaching it exactly when the side does |
| OrderBooks.OrderBook.FillBest | include/exchange/matching_engine.hpp:250-262 | fill, forget the filled order in the index, drop the empty level: one step of the flat queue |
| OrderBooks.OrderBook.BestLevel | src/exchange_server.cpp:2100-2134 | best price and cached level total are the top of the flat queue |
| MatchingEngines.MatchingEngine.ProcessOrder | include/exchange/matching_engine.hpp:40-89 | trades, outcome and new book equal those of the flat specification, the only ones TradingLaws.OnlyOneWayToCarryOut allows |
| MatchingEngines.MatchingEngine.MatchBuy | include/exchange/matching_engine.hpp:212-270 | the buying loop equals the greedy sweep of the asks, the remainder resting if it may |
| MatchingEngines.MatchingEngine.MatchSell | include/exchange/matching_engine.hpp:272-330 | the selling loop equals the greedy sweep of the bids |
| MatchingEngines.MatchingEngine.ReplaceOrder | include/exchange/matching_engine.hpp:122-159 | extraction and reprocessing equal the flat replacement; an unknown id changes nothing, a zero quantity throws first |
| BookTables.BookTable.Open | src/exchange_server.cpp:2191-2196 | a symbol gets an empty book if it has none; the other books are untouched |
| BookTables.BookTable.ProcessOrder | include/exchange/matching_engine.hpp:40-89 | only the named symbol's book changes, and it changes as specified |
| BookTables.BookTable.CancelOrder | include/exchange/matching_engine.hpp:91-96 | only the named symbol's book loses the order, and true exactly when it rested |
| BookTables.BookTable.ReplaceOrder | include/exchange/matching_engine.hpp:122-159 | only the named symbol's book changes, by the specified replacement; true exactly when it succeeded |
| LimitLaws.PositionCheckIsExact | src/risk_engine.cpp:607-672 | the sign-by-sign check with saturating sums rejects exactly when the projected position exceeds the limit |
| LimitLaws.AcceptedNewHasRoom | src/risk_engine.cpp:66-170 | an accepted new order fits the position limit in full and, if it may rest, the open-order and quantity limits |
| LimitLaws.AcceptedReplaceHasRoom | src/risk_engine.cpp:172-311 | after an accepted replacement and the withdrawal of the old order, the whole new order fits every limit |
| LimitLaws.OrderLimitsAreExact | src/risk_engine.cpp:572-605 | the division that avoids an overflow refuses exactly when quantity times price exceeds the notional limit, or the quantity its own |
| LimitLaws.NewAcceptedExactly | src/risk_engine.cpp:66-170 | a new order is accepted if and only if no kill switch is on and it fits every limit |
| LimitLaws.ReplaceAcceptedExactly | src/risk_engine.cpp:172-311 | a replacement is accepted if and only if the order is working, no kill switch is on and the new order, the old taken away, fits every limit |
| RejectionLaws.NewRejectedExactly | src/risk_engine.cpp:66-170 | a new order is rejected for exactly one reason: the first that applies of kill switches, size, notional, position, open orders and open quantity |
| RejectionLaws.ReplaceRejectedExactly | src/risk_engine.cpp:172-311 | a replacement is rejected for exactly one reason, what the old order took up being given back first |
| RejectionLaws.SaturationIsNearest | src/risk_engine.cpp:795-853 | counters and positions are the true sums where these fit 64 bits, and the nearest end of the range otherwise |
| LimitLaws.TradeKeepsLimits | src/risk_engine.cpp:388-445 | a trade of an accepted order keeps every client's limits, self-trades included, and moves exactly the two positions |
| LimitLaws.RestingKeepsLimits | src/risk_engine.cpp:313-370 | putting the remainder to work keeps every limit and the caches |
| LimitLaws.CancelLowers | src/risk_engine.cpp:372-386 | a cancel raises no exposure and lowers each aggregate by the order's weight |
| RiskLaws.EraseMirrors | src/risk_engine.cpp:674-731 | after erasing, each cached aggregate is again the count or sum over the working orders, so no clamp fires |
| RiskLaws.ReduceMirrors | src/risk_engine.cpp:733-793 | after an execution reduces a working order, each cached aggregate is again the count or sum over the working orders |
| RiskLaws.RestingMirrors | src/risk_engine.cpp:313-370 | after an order starts working, each cached aggregate is again the count or sum over the working orders |
| RiskLaws.LegMirrors | src/risk_engine.cpp:388-445 | after one side of a trade the caches are exact again and the position has moved by the quantity |
| RiskLaws.NoClamp | src/risk_engine.cpp:674-793 | a working order never weighs more than the aggregate it is taken from |
| RiskEngines.RiskEngine.OnOrderResting | src/risk_engine.cpp:313-370 | the maps after the call are those of the specification function |
| RiskEngines.RiskEngine.OnOrderCancelled | src/risk_engine.cpp:372-386 | the maps after a cancel are those of the specification function; clients without a session are ignored |
| RiskEngines.RiskEngine.OnTrade | src/risk_engine.cpp:388-445 | the maps after a trade are those of the specification function: buyer then seller, each only if it has a session |
| RiskEngines.RiskEngine.ApplyPositionDelta | src/risk_engine.cpp:795-828 | the position moves by the quantity, stopping at the ends of 64 bits |
| RiskEngines.RiskEngine.EraseWorkingOrder | src/risk_engine.cpp:674-731 | the working order goes and the three aggregates give its quantity back, stopping at zero |
| RiskEngines.RiskEngine.ReduceWorkingOrder | src/risk_engine.cpp:733-793 | the working order shrinks by what was executed, going at zero |
| RiskEngines.RiskEngine.SetGlobalKillSwitch | src/risk_engine.cpp:447-451 | only the switch changes |
| RiskEngines.RiskEngine.SetClientKillSwitch | src/risk_engine.cpp:457-466 | only that client's switch changes |
| ExchangeLaws.SettlingKeeps | src/exchange_server.cpp:929-975 | settling the trades of one order keeps limits, caches and the mirror between working orders and book |
| ExchangeLaws.CompleteKeeps | src/exchange_server.cpp:929-1050 | matching and completing an admitted order keeps owners, risk and book in agreement within the limits |
| ExchangeLaws.RemainderIsWhatIsLeft | include/exchange/matching_engine.hpp:264-269 | what rests of an order is exactly its untraded remainder |
| ExchangeLaws.OwnersFollow | src/exchange_server.cpp:2161-2189 | after the used-up orders are forgotten, every owner on record has a resting order |
| EntryLaws.NewOrderDoesWhatItSays | src/exchange_server.cpp:727-1144 | from the fields of the message: an accepted order trades on its own side, under its id, within its price and as much as it can reach; what is left of a good-till-cancel limit order rests under its id with its side, price and time and is the order announced, and of any other nothing; each connection hears of each side it has; the sender becomes the owner of what rests |
| EntryLaws.ReplaceDoesWhatItSays | src/exchange_server.cpp:1274-1656 | the same for an accepted replacement: it is of an order the sender owns, which leaves the book, and the order put in its place has its id and side and the price, quantity and time of the message |
| EntryLaws.CancelDoesWhatItSays | src/exchange_server.cpp:1146-1272 | an accepted cancel is of an order the sender owns, and takes just that order and its owner away |
| EntryLaws.EveryOwnerHears | src/exchange_server.cpp:929-961 | where one side of each trade is the sender and the other the owner on record, or nobody, each connection is told of exactly the trades it has a side of, in order, one copy for each side |
| EntryLaws.OwnersArePassedOn | src/exchange_server.cpp:2161-2189 | after matching the sender owns what it has at rest, everyone else what they owned and still rests, and nobody anything else |
| EntryLaws.BuyerIsToldFirst | src/exchange_server.cpp:1824-1843 | the buyer of each trade is told before its seller, trade after trade |
| EntryLaws.HandledByNumber | src/exchange_server.cpp:687-725 | message types 1, 2 and 3 are new order, cancel and replacement; any other changes nothing |
| EntryLaws.SessionsStayApart | src/exchange_server.cpp:2232-2267 | sessions come and go with their connections, and in every run no two connections share a session number |
| AcceptanceLaws.NewOrderAcceptedExactly | src/exchange_server.cpp:727-887 | from the fields of the message: a new order is accepted if and only if it is readable and its quantity fits 32 bits, its id is not at rest, no kill switch is on, and order size, projected position, open orders and quantity and notional are within their limits, the notional of a market order taken at the best price of the side it will trade with |
| AcceptanceLaws.MarketOrdersAreWorthTheirLimit | src/exchange_server.cpp:2213-2231 | the whole quantity of an accepted market order, at the price of its first trade, is within the notional limit |
| AcceptanceLaws.SwitchesStay | src/exchange_server.cpp:329-337 | the global switch is as it was last set, and no message changes any switch |
| AcceptanceLaws.KillSwitchStops | src/risk_engine.cpp:66-91 | in every run after the global switch is thrown, and until it is taken back, no new order and no replacement is accepted |
| AcceptanceLaws.StoppedClientsStayStopped | src/risk_engine.cpp:457-466 | a client whose own switch is on has no new order and no replacement accepted in any run |
| AcceptanceLaws.CancelAcceptedExactly | src/exchange_server.cpp:1146-1210 | a cancel is accepted if and only if it is readable and its sender is on record, with the same connection and session, as the owner of the order |
| AcceptanceLaws.ReplaceOrderAcceptedExactly | src/exchange_server.cpp:1274-1400 | a replacement is accepted if and only if it is readable and fits 32 bits, a session names its own resting order, no kill switch is on, and the new order, the old taken away, fits every limit |
| RunLaws.ReactKeepsAgreement | src/exchange_server.cpp:687-1656 | every message, connection and administrative action keeps the five structures in agreement |
| RunLaws.RunKeepsAgreement | src/exchange_server.cpp:687-1656 | every run, whatever clients send, keeps the five structures in agreement |
| RunLaws.LimitsHoldInEveryRun | src/risk_engine.cpp:607-672 | in every run each client and symbol keeps position plus open buys, and minus position plus open sells, within the limit, and open orders and quantity within theirs |
| RunLaws.StartedAgrees | src/exchange_server.cpp:126-228 | a freshly started exchange on well-formed recovered books is in agreement |
| RecoveryLaws.NewOrderRecoverable | src/exchange_server.cpp:889-907 | after a new order the journal replays to exactly the live books |
| RecoveryLaws.CancelRecoverable | src/exchange_server.cpp:1146-1272 | after a cancel the journal replays to exactly the live books |
| RecoveryLaws.ReplaceRecoverable | src/exchange_server.cpp:1274-1594 | after a replacement the journal replays to exactly the live books |
| RecoveryLaws.ReplaceSucceeds | src/exchange_server.cpp:1426-1434 | replacing a resting order never fails, so the branch that puts the old exposure back is never taken |
| RecoveryLaws.RunIsRecoverable | src/replay.cpp:80-331 | after every completed command of every run, replaying the journal rebuilds the live books symbol by symbol with nothing rejected |
| RecoveryLaws.RestartIsFaithful | src/exchange_server.cpp:126-228 | restarting from the journal brings back the same books, in agreement and recoverable again |
| RecoveryLaws.RecoveryAcrossRestart | src/exchange_server.cpp:126-317 | from the first start, across a restart, to the end of a second run that appends to the same journal |
| RecoveryLaws.GoesOnReplayingExactly | src/replay.cpp:91-132 | a journal that replays still does after an accepted command if and only if it ended at a record boundary |
| FeedLaws.FeedFollowsReaction | dashboard/src/App.tsx:186-237 | applying one command's events in emission order to a screen that shows the books makes it show the books afterwards |
| FeedLaws.FeedFollowsRun | dashboard/src/App.tsx:186-237 | over every run, a screen that starts in step shows the live books at the end |
| FeedLaws.ExecutionsTrack | dashboard/src/App.tsx:216-230 | the execution events lower exactly the orders that traded, and the incoming order is not yet shown |
| FeedLaws.CompleteIsShown | src/exchange_server.cpp:1130-1143 | executions, then deletions, then the added remainder lead from the book before to the book after |
| FeedLaws.AnnouncedInOrder | src/exchange_server.cpp:1130-1143 | top of book, withdrawn order, one execution for each trade, one deletion for each order used up, the order that came to rest: at these places and with these contents |
| FeedLaws.QuotesFollowRun | dashboard/src/App.tsx:195-208 | over every run the displayed best bid and offer are those of the live book, the bid below the offer |
| ExchangeLaws.RepliesTellTheOutcome | src/exchange_server.cpp:727-1656 | a reply goes to the sender and names the order and the command; success means the command is in the journal and took effect, failure that books, owners, risk and journal are as they were, so that a journal grows exactly on success |
| ExchangeLaws.EverySideIsTold | src/exchange_server.cpp:1753-1843 | each connection is told once of each side it has in the deliveries, and nobody else of anything; whose sides these are EntryLaws.EveryOwnerHears says |
| ExchangeLaws.SelfTradeIsSentTwice | src/exchange_server.cpp:1824-1843 | a connection that owns both sides of a trade is sent two copies one after the other, as the FIX gateway relies on |
| BalanceLaws.RunBalances | src/risk_engine.cpp:795-828 | in runs of connected clients every resting order belongs to a session and positions stay balanced |
| BalanceLaws.PositionsSumToZero | src/risk_engine.cpp:388-445 | started with empty books, the positions of all clients in each symbol sum to zero after every run |
| RoomLaws.BooksAreNarrow | include/exchange/price_level.hpp:79-84 | while the number of sessions times the open-quantity limit fits 32 bits beside the quantity recovered at each price, no level total of any book wraps |
| RoomLaws.LiveRunsHaveRoom | include/exchange/price_level.hpp:79-84 | over every run of connected clients within that bound, recovered orders included, no book a command leaves wraps a level total |
| RoomLaws.StartedRunHasRoom | src/exchange_server.cpp:126-228 | a start on any recovered books within that bound meets what the server methods ask of level totals, over the whole run |
| ExchangeServers.ExchangeServer.HandleNewOrder | src/exchange_server.cpp:727-1144 | state, reply, execution reports and feed events are those of the specified step, of which EntryLaws.NewOrderDoesWhatItSays tells the outcome |
| ExchangeServers.ExchangeServer.AdmitOrder | src/exchange_server.cpp:833-887 | the specified decision between refusal and execution, which AcceptanceLaws.NewOrderAcceptedExactly gives in the limits' terms, with the instrument created first |
| ExchangeServers.ExchangeServer.ExecuteOrder | src/exchange_server.cpp:889-1050 | journal, matching, owners and risk for an accepted order |
| ExchangeServers.ExchangeServer.HandleCancelOrder | src/exchange_server.cpp:1146-1272 | state, reply and feed events of a cancel are those of the specified step |
| ExchangeServers.ExchangeServer.HandleReplaceOrder | src/exchange_server.cpp:1274-1656 | state, reply, execution reports and feed events of a replacement are those of the specified step |
| ExchangeServers.ExchangeServer.HandleMessage | src/exchange_server.cpp:687-725 | the switch on the message type: state, replies, execution reports and events are those of the specified step, and other types change and answer nothing |
| ExchangeServers.ExchangeServer.SettleTrades | src/exchange_server.cpp:929-1017 | the loop over the trades equals the specified deliveries, risk state and set of used-up orders; the owners in the deliveries are those EntryLaws.NewOrderDoesWhatItSays names |
| ExchangeServers.ExchangeServer.RemoveFilledOrderOwners | src/exchange_server.cpp:2161-2189 | exactly the owners of used-up orders go |
| ExchangeServers.ExchangeServer.FollowMatching | src/exchange_server.cpp:929-1050 | owners and risk after the trades and the resting remainder |
| ExchangeServers.ExchangeServer.AppendJournalRecord | src/exchange_server.cpp:1658-1687 | header and body appended as one record, or nothing without a journal |
| ExchangeServers.ExchangeServer.SendExecutionDeliveries | src/exchange_server.cpp:1824-1843 | buyer then seller of every trade in order, nobody for an order without a connection |
| ExchangeServers.ExchangeServer.BroadcastDeletions | src/exchange_server.cpp:1008-1017 | each used-up order announced once, in some order |
| ExchangeServers.ExchangeServer.Announce | src/exchange_server.cpp:1130-1143 | the events of a command in emission order |
| ExchangeServers.ExchangeServer.ProcessReceiveBuffer | src/exchange_server.cpp:595-685 | every whole message in the buffer handled in order and the rest kept: state, replies, execution reports and events are those of a run of the specified steps, on messages framed as recovery relies on |
| ExchangeServers.InputsAreFramed | src/exchange_server.cpp:605-636 | every message taken from any receive buffer has a header that decoded and exactly the body it announces |
| ExchangeServers.BytesKeepRecoverable | src/exchange_server.cpp:595-685 | whatever bytes arrive on a connection, the journal goes on replaying to exactly the live books |
| ExchangeServers.ExchangeServer.RegisterClient | src/exchange_server.cpp:2232-2247 | a new session number for the connection |
| ExchangeServers.ExchangeServer.UnregisterClient | src/exchange_server.cpp:2249-2267 | the session is forgotten |
| ExchangeServers.RecoverAndStart | src/exchange_server.cpp:126-265 | null exactly when the journal cannot be replayed to its end; otherwise a server on the replayed books |
| Replayers.ExchangeReplayer.Replay | src/replay.cpp:80-331 | result, books and counters of the loop over the file equal the specified replay |
| Replayers.ExchangeReplayer.ApplyRecord | src/replay.cpp:127-321 | one record: header, size, switch on the type |
| EntryLaws.ReplayedNewOrderDoesWhatItSays | src/replay.cpp:158-216 | from the fields of the record: a replayed new order is carried out on its symbol's book in the only right way, and counted with its trades, or as rejected if it is unreadable, too large or refused |
| EntryLaws.ReplayedReplaceDoesWhatItSays | src/replay.cpp:248-310 | the same for a recorded replacement of an order at rest; any other is rejected |
| EntryLaws.ReplayedCancelDoesWhatItSays | src/replay.cpp:219-246 | a recorded cancel of an order at rest takes just that order away; any other is rejected |
| EntryLaws.ReplayedByNumber | src/replay.cpp:127-321 | every record is counted; one that is no message or has the wrong size is rejected, and one of another type counted as unsupported |
| Replayers.ExchangeReplayer.ApplyNewOrder | src/replay.cpp:158-216 | a recorded new order does to books and counters what the specified step does, its exceptions counted as rejected |
| Replayers.ExchangeReplayer.ApplyCancelOrder | src/replay.cpp:219-246 | a recorded cancel, rejected when symbol or order is unknown |
| Replayers.ExchangeReplayer.ApplyReplaceOrder | src/replay.cpp:248-310 | a recorded replacement |
| Replays.ReplayAppended | src/replay.cpp:91-140 | one more record in a whole journal is one more step of the replay |
| Replays.ReplayCut | src/replay.cpp:91-132 | replay of a journal cut anywhere succeeds exactly at a record boundary or inside a length field, and has then rebuilt what the whole records before the cut give, a failure counting as one more rejected |
| Journal.ReadFile | src/journal.cpp:79-128 | the records appended are the records read |
| Journal.FileOfReading | src/replay.cpp:91-132 | the records read are the records appended, up to a torn length |
| Journal.ReadCutFile | src/replay.cpp:91-132 | what a cut file reads as, and when it ends normally |
| Journal.ReadAppended | src/journal.cpp:79-128 | appending adds exactly one record to what is read |
| Journal.AppendedIsReadExactly | src/replay.cpp:91-132 | one more record of the size of a command is read if and only if the file was whole; behind a torn length it is read off its place |
| Journal.TornIsAccepted | src/replay.cpp:91-112 | one to three bytes of a length behind whole records are a normal end, though the file is not whole |
| Journal.ExchangeJournal.Append | src/journal.cpp:79-128 | length and message at the end of the file, unless the length does not fit its field |
| LayoutLaws.RecordBytes | src/journal.cpp:79-128 | a record is four bytes of length, the least significant first, and the message |
| Journal.EncodeRecordLength | src/journal.cpp:16-34 | the byte loop writes the little-endian length |
| WireLaws.HeaderRoundTrip | include/exchange/protocol.hpp:326-419 | decoding an encoded header returns it |
| WireLaws.HeaderInverse | include/exchange/protocol.hpp:326-419 | encoding a decoded header returns its bytes |
| WireLaws.NewOrderRoundTrip | include/exchange/protocol.hpp:421-602 | decoding an encoded new order returns it |
| WireLaws.NewOrderInverse | include/exchange/protocol.hpp:483-602 | encoding a decoded new order returns its bytes |
| WireLaws.CancelOrderRoundTrip | include/exchange/protocol.hpp:605-644 | decoding an encoded cancel returns it |
| WireLaws.CancelOrderInverse | include/exchange/protocol.hpp:619-644 | encoding a decoded cancel returns its bytes |
| WireLaws.ReplaceOrderRoundTrip | include/exchange/protocol.hpp:646-697 | decoding an encoded replacement returns it |
| WireLaws.ReplaceOrderInverse | include/exchange/protocol.hpp:662-697 | encoding a decoded replacement returns its bytes |
| LayoutLaws.HeaderBytes | include/exchange/protocol.hpp:356-419 | which twenty bytes are a header, and what each stands for: magic number, version, type, body size and sequence number, the least significant byte first |
| LayoutLaws.NewOrderBytes | include/exchange/protocol.hpp:483-602 | which 43 bytes are a new order, and what each stands for: id, timestamp, signed price, quantity, the codes of side, type and time in force, and the symbol |
| LayoutLaws.CancelOrderBytes | include/exchange/protocol.hpp:619-644 | which 24 bytes are a cancel, and what each stands for |
| LayoutLaws.ReplaceOrderBytes | include/exchange/protocol.hpp:662-697 | which 40 bytes are a replacement, and what each stands for |
| LayoutLaws.SymbolsAreSpelled | include/exchange/protocol.hpp:67-91 | which eight bytes are a symbol, and its text |
| Wire.ReadWhatWasWritten | include/exchange/protocol.hpp:225-274 | an integer that fits its width is read as written |
| Wire.WriteWhatWasRead | include/exchange/protocol.hpp:225-274 | the bytes of a read integer are written again |
| Codec.WriteInteger | include/exchange/protocol.hpp:225-246 | the byte loop writes the little-endian value at the offset and leaves what is before it |
| Codec.ReadInteger | include/exchange/protocol.hpp:248-274 | the byte loop reads the value and moves the cursor, or neither when the input is short |
| Codec.WriteSymbol | include/exchange/protocol.hpp:276-286 | the symbol's bytes at the offset |
| Codec.ReadSymbol | include/exchange/protocol.hpp:288-311 | eight bytes if they are a valid symbol |
| Codec.IsValidSymbol | include/exchange/protocol.hpp:67-91 | one pass accepts exactly characters followed by terminators, at least one character |
| Codec.EncodeHeader | include/exchange/protocol.hpp:326-354 | the cursor encoder fills the array with the specified bytes |
| Codec.DecodeHeader | include/exchange/protocol.hpp:356-419 | the cursor decoder returns the specified value |
| Codec.EncodeNewOrder | include/exchange/protocol.hpp:421-481 | the cursor encoder writes a new order's specified bytes |
| Codec.DecodeNewOrder | include/exchange/protocol.hpp:483-602 | the cursor decoder returns the specified request or nothing, with its checks of side, type, time in force, symbol and quantity |
| Codec.EncodeCancelOrder | include/exchange/protocol.hpp:605-617 | the cursor encoder writes a cancel's specified bytes |
| Codec.DecodeCancelOrder | include/exchange/protocol.hpp:619-644 | the cursor decoder returns the specified cancel or nothing |
| Codec.EncodeReplaceOrder | include/exchange/protocol.hpp:646-660 | the cursor encoder writes a replacement's specified bytes |
| Codec.DecodeReplaceOrder | include/exchange/protocol.hpp:662-697 | the cursor decoder returns the specified replacement or nothing |
| Framing.CutFreeExactly | src/exchange_server.cpp:595-685 | messages and left-over bytes do not depend on the cut of a stream if and only if it holds no bad header or the first one ends with its last byte |
| Framing.ChunksDoNotMatter | src/exchange_server.cpp:595-685 | behind any unfinished bytes already in the buffer, a stream without a bad header yields the same messages and leaves the same bytes however it is cut |
| Framing.SentIsReceived | src/exchange_server.cpp:595-685 | the messages sent are the messages handed over, an unfinished one staying in the buffer |
| Framing.DrainInTwo | src/exchange_server.cpp:595-685 | draining a first part without a bad header before the rest arrives makes no difference |
| Framing.BadHeaderMatters | src/exchange_server.cpp:610-626 | any header that does not decode or announces too large a body, between any whole messages: those after it are lost when they arrive with it and handed over when they arrive later |
| SpscRings.EveryRunIsFifo | include/exchange/lock_free_ring.hpp:50-135 | in every interleaving what has been read is a prefix of what was published, untorn, and never more than the capacity is queued |
| SpscRings.RunKeepsSound | include/exchange/lock_free_ring.hpp:50-159 | every interleaving keeps cached read <= read <= cached write <= write <= cached read + capacity, the words being their images modulo 2^64 |
| SpscRings.StepIsQueueStep | include/exchange/lock_free_ring.hpp:50-135 | each step of either thread leaves the queue alone, appends one value while there is room, or takes its head |
| SpscRings.RefusedMeansFull | include/exchange/lock_free_ring.hpp:60-68 | a push is refused exactly when the queue is full as the read position is loaded |
| SpscRings.NothingMeansEmpty | include/exchange/lock_free_ring.hpp:116-124 | a pop finds nothing exactly when the queue is empty as the write position is loaded |
| SpscRings.NeverInTheSameSlot | include/exchange/lock_free_ring.hpp:70-127 | while both threads are in a slot, the slots differ |
| SpscRings.SizeForTheConsumer | include/exchange/lock_free_ring.hpp:149-159 | for the consumer the two-load size is the true size at the first load |
| SpscRings.SizeForAnyone | include/exchange/lock_free_ring.hpp:149-159 | asked by anyone, with pops and pushes between the two loads, the size is what had been pushed at the first and not popped at the second, or the capacity once the reader has overtaken the first load |
| SpscRings.PushAloneMeans | include/exchange/lock_free_ring.hpp:50-79 | the steps of one push run alone append the value if there was room |
| SpscRings.PopAloneMeans | include/exchange/lock_free_ring.hpp:106-135 | the steps of one pop run alone take the head if there was one |
| SpscRings.SpscRing.TryPush | include/exchange/lock_free_ring.hpp:50-79 | the method takes the steps of the machine and appends exactly when there is room |
| SpscRings.SpscRing.TryPop | include/exchange/lock_free_ring.hpp:106-135 | the method takes the steps of the machine and returns the head |
| SpscRings.SpscRing.Reset | include/exchange/lock_free_ring.hpp:42-47 | an empty queue |
| SpscRings.SpscRing.SizeApprox | include/exchange/lock_free_ring.hpp:149-159 | the number of queued values |
| RingPositions.WholeRounds | include/exchange/lock_free_ring.hpp:22-28 | a larger power of two is a whole number of rounds of the ring, so the range of a word is |
| RingPositions.WrappedDistance | include/exchange/lock_free_ring.hpp:60-68 | wrapping subtraction gives the distance of the positions |
| RingPositions.SlotIsMasked | include/exchange/lock_free_ring.hpp:28-28 | the slot of a position is the position masked, bit by bit, with the capacity less one |
| RingPositions.WrappedSlot | include/exchange/lock_free_ring.hpp:70-70 | a wrapped position names the slot of the position it stands for |
| RingPositions.WrappedSlotsExactly | include/exchange/lock_free_ring.hpp:22-28 | wrapped and true positions name the same slots everywhere if and only if the range of a word is a whole number of rounds of the ring |
| RingPositions.ThreeSlotsClash | include/exchange/lock_free_ring.hpp:22-26 | why the assertion on the capacity is there: with three slots, which it refuses, two neighbouring positions would share one |
| PublisherLaws.EveryRunIsSafe | src/multicast_publisher.cpp:172-358 | the invariant over any number of threads, any interleaving and any restarts |
| PublisherLaws.ProducersAreApart | src/multicast_publisher.cpp:386-419 | two threads whose calls reached the same shard are one thread |
| PublisherLaws.NoLostWakeUp | src/multicast_publisher.cpp:343-356 | while the publisher sleeps with the flag clear, every queue with work has a producer between push and signal, and a stop has yet to set the flag; with the flag set somebody is about to notify |
| PublisherLaws.SleepsOnlyWhenIdle | src/multicast_publisher.cpp:454-463 | when every call has returned, a sleeping publisher is running and every queue is empty |
| PublisherLaws.SentIsWhatWasAccepted | src/multicast_publisher.cpp:207-234 | what was sent on from a shard is the front of what its producer's calls returned true for, in order and once |
| PublisherLaws.DrainedOnExit | src/multicast_publisher.cpp:334-339 | when the publisher thread has exited, everything given to a shard before stop began has been sent on |
| PublisherLaws.NothingPushedAfterExit | src/multicast_publisher.cpp:193-205 | from then on no call pushes any more |
| PublisherLaws.SenderKeepsSignals | src/multicast_publisher.cpp:225-234 | a step of a sender keeps the promise of a signal for every queue with work |
| PublisherLaws.ConsumerKeepsWakefulness | src/multicast_publisher.cpp:343-356 | a step of the publisher thread, arming included, keeps that promise and sleeps safely |
| PublisherLaws.StopKeepsWakefulness | src/multicast_publisher.cpp:153-157 | a step of stop keeps both |
| PublisherRuns.FairService | src/multicast_publisher.cpp:286-326 | a shard with work at the start of a scan is served within 256 steps of the publisher thread, each step that does not serve it bringing it one nearer, and so waits for at most 255 datagrams of others |
| PublisherSends.CallAlone | src/multicast_publisher.cpp:172-234 | a send that nobody interrupts returns within ten steps, and accepts exactly when the publisher runs, the datagram has 1 to 512 bytes, the thread has or gets one of the 256 shards and fewer than 32 datagrams wait in it; then the datagram is last in the shard and the wake flag set |
| PublisherExits.StopDrainsExactly | src/multicast_publisher.cpp:202-224 | in every way on from the beginning of stop everything that went into a queue is sent before the thread exits, if and only if no call is then between its running test and its push |
| PublisherExits.StopDrainsWithoutPushers | src/multicast_publisher.cpp:334-339 | the half of it for states without such a call |
| PublisherExits.LateSendIsLost | src/multicast_publisher.cpp:334-339 | from every state with such a call a way on in which the call answers true, the thread exits, and the datagram stays in the queue |
| PublisherExits.PushIsReached | src/multicast_publisher.cpp:172-213 | such states are reached |
| FixLaws.RoundTrip | src/fix.cpp:128-291 | parsing an encoding returns the fields in order if and only if the tags are positive and not 8, 9 or 10, no value holds an SOH, and the first tag 35 is not empty |
| FixLaws.OneWrongByteIsDetected | src/fix.cpp:163-291 | every message differing from an accepted one in exactly one byte is rejected |
| FixLaws.LengthDigit | src/fix.cpp:180-230 | a wrong byte among the digits of the body length is detected, an SOH there included |
| FixLaws.LengthEnd | src/fix.cpp:180-204 | a wrong byte in place of the SOH after the body length is detected |
| FixLaws.BodyOrChecksum | src/fix.cpp:206-242 | a wrong byte in the body, the checksum tag, its digits or the last SOH is detected |
| FixLaws.OneByteMatters | src/fix.cpp:58-69 | one wrong byte changes the checksum |
| FixLaws.AcceptedIsAssembled | src/fix.cpp:163-242 | an accepted message is prefix, length, body and checksum, with the length and sum of its own body |
| FixFormats.EncodingIsMessage | src/fix.cpp:128-161 | the bytes of every encoding: version, decimal body length, the fields but for tags 8, 9 and 10 as tag, equals sign, value and SOH, and three digits of the sum of all bytes before them modulo 256 |
| FixFormats.AcceptedExactly | src/fix.cpp:163-291 | a message is accepted with these fields if and only if it is version, length, body and checksum with the length and sum of its own bytes, and the body reads as these fields, the first tag 35 with a value |
| FixFormats.RejectedExactly | src/fix.cpp:163-291 | a message is rejected for exactly one reason: the first part, from the front, that is missing or wrong |
| FixFormats.FieldsAreRead | src/fix.cpp:244-280 | a body reads as these fields if and only if it is, up to each SOH, a positive tag, the first equals sign and the value |
| FixFormats.ExtractedExactly | src/fix.cpp:293-382 | what is extracted from any buffer and what is left in it, told by the first version in it, the length behind it and the checksum field where the length says |
| FixStreams.StreamRoundTrip | src/fix.cpp:293-382 | encodings one after another with an unfinished one, cut into any chunks: exactly the encodings are extracted and exactly the unfinished bytes are left |
| FixStreams.CutFreeExactly | src/fix.cpp:293-382 | what is extracted until the first invalid data does not depend on the cut if and only if no message, whole or not, has more than one byte in front of its prefix, unless what stands there is invalid: one pass over the gaps |
| FixStreams.ChunksDoNotMatter | src/fix.cpp:293-382 | behind any unfinished bytes, a stream that is never invalid is extracted alike however it is cut |
| FixStreams.NoiseMatters | src/fix.cpp:298-311 | in front of a message, noise of up to one byte never matters; with two or more bytes the message is extracted when all arrives together, and the cut after eleven bytes ends the session before it |
| FixStreams.InvalidMore | src/fix.cpp:324-377 | data found invalid behind its prefix stays invalid with more bytes after it |
| FixStreams.PullInTwo | src/fix.cpp:293-382 | what is extracted from a first part is not affected by what follows, resynchronisation included |
| FixCodec.Encode | src/fix.cpp:128-161 | the loop over the fields builds the specified bytes |
| FixCodec.ParseMessage | src/fix.cpp:163-291 | the cursor parser returns the specified fields or the specified reason |
| FixCodec.ParseBodyFields | src/fix.cpp:244-280 | the cursor loop over the body |
| FixCodec.ChecksumBefore | src/fix.cpp:58-69 | the 32-bit sum gives the checksum of all bytes before the offset |
| FixCodec.ReceiveBuffer.ExtractOne | src/fix.cpp:293-382 | result and remaining buffer are those specified |
| FixCodec.SetThenGet | src/fix.cpp:97-118 | a set value is seen by get, by no other tag, and no field moves |
| FixCodec.Message.Set | src/fix.cpp:97-106 | overwrites the first field of the tag or adds one |
| FixCodec.Message.GetValue | src/fix.cpp:108-118 | the first field of the tag |
| GatewayLaws.EverySessionIsAccounted | src/fix_gateway.cpp:1073-1345 | in every session run the reported LastQty values of a held order sum to its CumQty, and every mapped ClOrdID names a held order |
| GatewayLaws.QuietRunIsLevel | src/fix_gateway.cpp:1028-1048 | order by order: a working order keeps CumQty + LeavesQty = OrderQty if no execution for it arrives between a request to replace it and the response, whatever becomes of the session's other orders |
| GatewayLaws.QuietOrderAddsUp | src/fix_gateway.cpp:1028-1211 | the same for any order, from the beginning of a session |
| GatewayLaws.AlwaysLevelExactly | src/fix_gateway.cpp:1028-1211 | over every run an order keeps CumQty + LeavesQty = OrderQty whenever it works if and only if each acknowledged replacement of it finds the cumulative quantity it was worked out from |
| GatewayLaws.EveryOrderIsLevelExactly | src/fix_gateway.cpp:1028-1211 | the same from the beginning of a session |
| GatewayLaws.ReplacementAddsUp | src/fix_gateway.cpp:1028-1211 | over every run from a replacement request to its response, the acknowledged order has CumQty + LeavesQty = OrderQty if and only if no execution was reported for it meanwhile |
| GatewayLaws.UnsentLeavesNothing | src/fix_gateway.cpp:722-746 | a new order that could not be sent leaves nothing but its used ids and an empty queue |
| GatewayLaws.RaceLeavesUnequal | src/fix_gateway.cpp:1028-1211 | a run with such an execution that ends with unequal quantities |
| GatewayLaws.SelfTradeAppliesOnce | src/fix_gateway.cpp:1290-1327 | two consecutive copies of a trade within the session are applied once |
| GatewayLaws.CopiesCountOnce | src/fix_gateway.cpp:1290-1327 | over a whole run in which copies come together, every such trade counts exactly once |
| GatewayLaws.ResponseKeepsBooked | src/fix_gateway.cpp:1073-1223 | a response keeps every mapped id naming a held order |
| ResponseLaws.CancelIsAnswered | src/fix_gateway.cpp:748-1187 | over every run from a cancel request to its response: a success leaves nothing of the order and is told as a cancellation, a failure leaves it alone and is told as a rejection, each under the request's ClOrdID, and nothing else changes |
| ResponseLaws.NewIsAnswered | src/fix_gateway.cpp:626-1160 | the same for a new order: acknowledged, or refused and forgotten with every ClOrdID that named it |
| ResponseLaws.ReplaceIsAnswered | src/fix_gateway.cpp:852-1223 | the same for a replacement: the order goes by the new ClOrdID with the quantity and price asked for, what was executed at the request taken from what remains, or is as it was |
| ResponseLaws.CancelledNoLongerWorks | src/fix_gateway.cpp:748-850 | after a successful cancel a further request about the order is told that it does not work |
| ResponseLaws.NewRequestIsHandled | src/fix_gateway.cpp:626-746 | a new order is turned away for exactly one reason, or is on record under the number drawn with its terms and its whole quantity left |
| ResponseLaws.CancelRequestIsHandled | src/fix_gateway.cpp:748-850 | a cancel request is turned away for exactly one reason, or queued behind the others for its order |
| ResponseLaws.ReplaceRequestIsHandled | src/fix_gateway.cpp:852-1071 | a replacement request is turned away for exactly one reason, or queued with the quantity asked for less what is executed |
| ResponseLaws.TradeIsExecuted | src/fix_gateway.cpp:1235-1345 | a trade executes every order of the session that is a side of it, buyer first, each by what it has left at most, with quantities, notional, status and report accordingly; the second copy of a trade within the session executes nothing |
| ResponseLaws.BoundaryIsPassed | src/fix_gateway.cpp:1347-1403 | at a book update every order of its symbol that waits for one ends, with nothing left, and is reported as cancelled if it had something left |
| GatewaySessions.SessionContext.HandleNewOrder | src/fix_gateway.cpp:626-746 | session maps and queues after a new order, the undoing of a failed send included |
| GatewaySessions.SessionContext.HandleCancel | src/fix_gateway.cpp:748-850 | session maps and queues after a cancel request, with its reasons for refusal in order |
| GatewaySessions.SessionContext.HandleReplace | src/fix_gateway.cpp:852-1071 | session maps and queues after a replacement request, with its checks in order |
| GatewaySessions.SessionContext.HandleCoreOrderResponse | src/fix_gateway.cpp:1073-1223 | the session after a response is the specified one, which answers the oldest outstanding request; ResponseLaws.CancelIsAnswered, NewIsAnswered and ReplaceIsAnswered give the answers |
| GatewaySessions.SessionContext.ApplyTradeToOrder | src/fix_gateway.cpp:1235-1268 | order and report after one side of an execution, capped by what is left |
| GatewaySessions.SessionContext.HandleCoreTrade | src/fix_gateway.cpp:1270-1345 | session after a trade, the duplicate copy ignored |
| GatewaySessions.SessionContext.FinalizeNonRestingOrders | src/fix_gateway.cpp:1347-1403 | every order waiting for its boundary once, in some order |
| LatencyHistograms.ReportIsWithinTwo | src/performance_metrics.cpp:194-225 | the reported value is at least the exact nearest-rank sample, less than twice it, and at most the maximum |
| LatencyHistograms.BoundIsWithinTwo | src/performance_metrics.cpp:172-193 | a bucket's bound is not below its values and less than twice any of them |
| LatencyHistograms.RankIsUnique | src/performance_metrics.cpp:205-212 | the exact order statistic is unique and grows with the rank |
| LatencyHistograms.RankBelow | src/performance_metrics.cpp:205-212 | an order statistic exists for every rank up to the number of samples |
| LatencyHistograms.TargetIsNearest | src/performance_metrics.cpp:205-212 | the rank looked for is the nearest rank: the least number of samples, and at least one, that makes up the percentage |
| LatencyHistograms.FirstBucketIsTheSamples | src/performance_metrics.cpp:212-224 | the first bucket whose running sum reaches the rank is the exact sample's own |
| LatencyHistograms.PerformanceMetrics.RecordMatchingLatency | src/performance_metrics.cpp:78-105 | counts, number, sum modulo 2^64 and maximum follow the samples recorded |
| LatencyHistograms.PerformanceMetrics.Percentile | src/performance_metrics.cpp:195-225 | the scan reports the bound of the exact sample's bucket, capped by the maximum |
| LatencyHistograms.PerformanceMetrics.Snapshot | src/performance_metrics.cpp:107-170 | p50 <= p95 <= p99 <= maximum, each within a factor of two of the exact percentile |

## Left out

Deliberately narrower than the implementation:

- PriceLevels.PriceLevel.AddOrder: requires the level's new total to fit 32 bits; the implementation adds without a guard, and a wrapped total is not modelled.
- BookSides.BookSide.Add: the same requirement for the price the order rests at.
- OrderBooks.OrderBook.AddOrder: the same requirement; and it takes good-till-cancel orders only, because the matching engine offers it no others.
- MatchingEngines.MatchingEngine.ProcessOrder: requires that no price level of the resulting book exceeds 32 bits, and so do MatchBuy, MatchSell, ReplaceOrder, the book table's and the server's methods and the replayer, each for the books it leaves; RoomLaws.LiveRunsHaveRoom gives a bound on sessions, limits and recovered quantity under which runs of connected clients meet it.
- Codec.EncodeNewOrder: it and EncodeReplaceOrder take a price of 64 bits, and every request encoder a symbol of eight bytes, as the field types have it.
- PriceLevels.PriceLevel.Erase: a position in the list stands for the list iterator; list nodes, the memory pool and the invalidation of iterators are not modelled.
- LimitLaws.NewAcceptedExactly: it and the other position and quantity laws assume limits low enough that no 64-bit counter saturates; the saturating arithmetic itself is modelled.
- RunLaws.LimitsHoldInEveryRun: under the same assumption; the notional limit is checked as in the code, at one reference or limit price, so AcceptanceLaws.MarketOrdersAreWorthTheirLimit speaks of the first trade's price and nothing is claimed about the later ones.
- BalanceLaws.PositionsSumToZero: for runs without recovered orders, which have no owner, and with every message coming from a connected socket.
- RecoveryLaws.RunIsRecoverable: for journals that end at a record boundary; RecoveryLaws.GoesOnReplayingExactly says what a torn one does.
- FeedLaws.FeedFollowsRun: for the ordered event stream; the order across UDP shards, and broadcasts of several threads without a journal, are not claimed.
- ExchangeServers.ExchangeServer.HandleReplaceOrder: has no branch that restores the old exposure after a failed replacement; the flag the engine returns is proved true there.
- ExchangeServers.ExchangeServer.BroadcastDeletions: the order in which a hash set lists the used-up orders is left open, and every order is allowed.
- SpscRings.EveryRunIsFifo: sequential consistency is assumed; the acquire and release annotations are not modelled.
- PublisherLaws.EveryRunIsSafe: likewise; a queue is a FIFO by the ring's laws, one thread calls stop, and start is not concurrent with a send.
- PublisherLaws.DrainedOnExit: about what was given before stop began; sends that overlap stop are the subject of PublisherExits.StopDrainsExactly.
- FixLaws.RoundTrip: for bodies whose length a size can hold.
- FixStreams.CutFreeExactly: about extraction; that a message which extracts but does not parse also ends the session is not modelled.
- GatewaySessions.SessionContext.HandleNewOrder: the translation of the FIX fields into order terms is an input, and so is whether the request could be written to the exchange.
- GatewaySessions.SessionContext.FinalizeNonRestingOrders: a report that cannot be sent, which ends the session, is not modelled.
- EntryLaws.NewOrderDoesWhatItSays: an order that was recovered has no owner on record, so its side of a trade is reported to nobody, as in the code.
- PublisherSends.CallAlone: for a call that nobody interrupts; what holds under interleaving is the subject of PublisherLaws.
- ResponseLaws.CancelIsAnswered: it and its companions speak of a response that arrives while the order is held and the request is the oldest outstanding one for it; the gateway answers the oldest request, whatever the response was meant for.
- LatencyHistograms.PerformanceMetrics.RecordMatchingLatency: requires that the 64-bit sample counter does not wrap.
- LatencyHistograms.PerformanceMetrics.Snapshot: for at most as many samples as the rank computation holds without overflow; the floating-point mean is not modelled.
- Replayers.ExchangeReplayer.Replay: the count of symbols in the summary is not modelled.

Not modelled:

- Sockets, accept and receive loops, threads, heartbeats, timers, logging and start-up errors of files and sockets: what is sent is appended to output sequences, and timestamps are inputs.
- Sequence numbers of outgoing messages, and the encodings of responses, executions, book updates and Level-3 events, which have the same shape as those modelled.
- FIX logon, logout, heartbeat, test request and sequence checks; the average price, which is floating point.
- The dashboard's sequence display and JSON; JavaScript numbers are taken as integers.
- Swapping of recovered books into the server and release of the replayer's books: the table changes hands.
- Request and trade counters of the performance metrics; counters and high-water marks of the publisher, its socket and errors of sendto.
- MemoryPool, polymorphic allocators, hashing and the trade buffer's inline storage: trades are a sequence.
- WebSocket handshake, telemetry, benchmarks, plotting, command-line tools and deployment.
