# Sportfolio trading ledger, modelled in Dafny

Sportfolio is a fantasy stock market: users register with 10000.00 coins and
buy and sell shares of athletes at the athlete's current price. The server
keeps everything in an in-memory store of four maps: users, athletes,
portfolio holdings and trades. Each map has an auto-increment id counter.
This project models the core of that system:

- **`Storage.MemStorage`** (storage.dfy). The store is a class with the four
  maps as `map<int, …>` fields and the four counters as `int` fields. The
  `create*`, `update*` and `delete*` operations are methods with field-level
  `modifies` clauses. Each states the whole new state and keeps the store's
  validity invariant, `Storage.StoreValid`: every key lies below its counter
  and every record carries its own key as its id. The queries are functions
  over the map values in creation order: filter, find, stable descending sort
  and `slice(0, limit)`.
- **The trade handler** (routes.dfy). `Routes.ExecuteTrade` performs the
  handler's reads, checks and in-place updates in the handler's order. It is
  proved equal to `Routes.TradeStep`, a function on store snapshots
  (`StoreState`). The same holds for registration: `Routes.Register` is
  proved equal to `Routes.RegisterStep`.
- **The ledger's properties** (ledger.dfy). These are proved about
  `TradeStep` and `RegisterStep`, so they hold of the store the methods
  update:
  - an invariant kept by every request: at most one holding per (user,
    athlete), positive shares, non-negative whole-cent balances, records
    that name existing users and athletes, unique usernames;
  - refusals that change nothing;
  - share and cash movements;
  - the weighted-average cost basis;
  - the trade log and the volume counter.
- **The trading engine** (trading_engine.dfy): fee, cost by direction, order
  validation, portfolio value and gain/loss. The natural logarithm of the
  repricing formula is a parameter.
- **The athlete pricing helpers** (athlete_data.dfy): IPO price, injury
  multiplier and hotness tiers.

Money is an exact `real`. Every `toFixed(2)` in the code is `Money.Round2`:
round to the nearest cent, a tie going away from zero. Shares are integers.
The clock reading that stamps a trade is a parameter `now`. JavaScript `Map`
iteration order is ascending key order (`Collections.ValuesBelow`). This is
exact because ids are handed out 1, 2, 3, … and never reused.

Three behaviours of the code worth knowing:

- **Leaderboard.** The leaderboard sorts by the cached `portfolioValue`
  field, which the trade path never updates. It does not sort by a net worth
  recomputed at read time.
- **Debit rounding.** A buy rounds the new balance, `(coins - total)` to two
  places, not the total itself. The trade record rounds the subtotal and
  the fee on their own. At a half-cent tie the two round in opposite
  directions: the debit rounds down while the recorded fee rounds up, so
  they differ by a cent (`LedgerProperties.RecordAndDebitCanDiffer`).
- **Order of checks.** The handler checks that the athlete exists before it
  checks that the user exists.

## Model

| member | source | states |
|---|---|---|
| Money.Round2Close | routes.ts:129 | `toFixed(2)` yields a whole number of cents within half a cent of its input |
| Money.Round2OfCents | routes.ts:150 | `toFixed(2)` leaves an amount already in whole cents unchanged, so a price in cents becomes a first holding's average cost exactly |
| TradingEngine.FeeIsProportional | tradingEngine.ts:22-26 | the fee is exactly 1.5% of the amount: linear, between 0 and the amount for a non-negative amount, 3 on 200 |
| TradingEngine.TotalCostByDirection | tradingEngine.ts:28-38 | subtotal = shares × price and the fee do not depend on direction; a buy totals subtotal + fee and a sale subtotal − fee, two fees apart; for a non-negative order sell total ≤ subtotal ≤ buy total |
| TradingEngine.ValidateTrade | tradingEngine.ts:40-61 | non-positive shares are rejected first, and `InvalidNumberOfShares` is given exactly then; a buy is accepted iff the balance covers the buy total; a sell iff enough shares are held; each error belongs to its direction |
| TradingEngine.ValidationIgnoresIrrelevantInput | tradingEngine.ts:50-60 | a sale's verdict does not depend on the balance, a purchase's not on the shares held |
| TradingEngine.PortfolioValueAppend | tradingEngine.ts:63-70 | the portfolio value of two lists concatenated is the sum of their values |
| TradingEngine.PortfolioValueNonNegative | tradingEngine.ts:63-70 | with no negative shares or prices the value is never negative |
| TradingEngine.GainIsValueMinusCost | tradingEngine.ts:72-94 | Σ shares × (price − average cost) equals value minus cost basis |
| TradingEngine.CalculatePortfolioGainLoss | tradingEngine.ts:72-94 | the accumulation loop yields gain = value − cost basis, and a percentage that is 0 for a non-positive cost and gain/cost × 100 otherwise |
| TradingEngine.UpdatePriceBasedOnVolume | tradingEngine.ts:96-109 | the new price is max(price × multiplier, 1): at least both, and equal to one of them, the volume ratio being 1 when the average volume is not positive |
| TradingEngine.NeutralMarketKeepsPrice | tradingEngine.ts:103-108 | with neutral volume and no sentiment the price is kept, except for the floor of 1 |
| AthleteData.MultipliersFor | athleteData.ts:20-28 | a listed position (PG, SG, SF, PF, C) gets its own table row and any other position SF's; all counting multipliers are positive |
| AthleteData.CalculateIPOPrice | athleteData.ts:16-37 | the IPO price is at least 10, at least a tenth of the score, and equals one of the two |
| AthleteData.UnknownPositionPricedAsSF | athleteData.ts:28 | an unrecognised position is priced exactly as SF |
| AthleteData.OnlyCountingStatsMatter | athleteData.ts:30-33 | the stl, blk and threes multipliers play no part in the score |
| AthleteData.MissingStatIsZero | athleteData.ts:31-33 | a missing ppg, rpg or apg prices as a zero one |
| AthleteData.IPOPriceMonotone | athleteData.ts:20-36 | better ppg, rpg or apg never lowers the IPO price |
| AthleteData.CalculateInjuryImpact | athleteData.ts:39-50 | the injury multiplier lies in (0, 1]; it is the table's weight for a listed status and 1.0 otherwise |
| AthleteData.InjuryTable | athleteData.ts:41-49 | healthy 1.0, minor 0.85, moderate 0.65, major 0.25, out 0.1, anything else 1.0 |
| AthleteData.CalculateHotnessMultiplier | athleteData.ts:52-61 | the multiplier is one of 0.9, 0.95, 1.0, 1.08, 1.15, and 1.0 when the average volume is not positive |
| AthleteData.HotnessMonotone | athleteData.ts:56-60 | a higher volume ratio never gives a lower multiplier |
| AthleteData.HotnessBoundaries | athleteData.ts:56-60 | the comparisons are strict: a ratio of exactly 2.0, 1.5, 0.8 or 0.5 falls into the tier below |
| AthleteData.IpoPriceAsWritten | athleteData.ts:28 | the table lookup as written agrees with the intended price except on inherited property names |
| AthleteData.InjuryImpactAsWritten | athleteData.ts:49 | the injury lookup as written agrees with the intended multiplier except on inherited property names |
| AthleteData.InheritedNameDefeatsFallback | athleteData.ts:28-49 | "constructor", "toString" and "valueOf" defeat the SF and 1.0 fallbacks as written, while the intended functions keep the floor of 10 and return 1.0 |
| Storage.UserWithName | storage.ts:151-153 | the found user has the name, is stored under its id and no user with a lower id has the name; none is found iff no user has the name |
| Storage.HoldingOf | storage.ts:252-255 | the found holding belongs to the (user, athlete) pair and is stored under its id; none is found iff no stored holding belongs to the pair |
| Storage.TradesOf | storage.ts:301-302 | exactly the user's stored trades, each once, in increasing id (creation) order; as many as the user has made |
| Storage.NewestTradesOf | storage.ts:300-305 | `limit` of the user's trades, or all of them when there are fewer, newest first, none listed twice, none older than a trade left out; trades stamped at the same time keep creation order, and the cut keeps the earlier-created of a tie |
| Storage.TopTradersOf | storage.ts:314-318 | `limit` users, or all of them when there are fewer, by stored portfolio value descending, none listed twice, none ranked below a user left out; users with equal values keep creation order, and the cut keeps the earlier-created of a tie (so with every value 0.00 the first `limit` users by id) |
| Storage.TrendingOf | storage.ts:239-244 | ten athletes (or all), by trading volume descending with a missing volume as 0, none listed twice, none below an athlete left out; athletes with equal volumes keep creation order, and the cut keeps the earlier-created of a tie |
| Storage.MemStorage.constructor | storage.ts:52-63 | the store starts with four empty maps and every counter at 1 |
| Storage.MemStorage.GetUser | storage.ts:147-149 | the user stored under the id, none iff absent |
| Storage.MemStorage.GetUserByUsername | storage.ts:151-153 | the user with the name and the lowest id (the first in creation order), none iff no user has it |
| Storage.MemStorage.CreateUser | storage.ts:155-166 | the user takes the current counter as a fresh id above every existing one, with 10000.00 coins and portfolio value 0.00; no other user changes; the counter goes up by one |
| Storage.MemStorage.UpdateUserCoins | storage.ts:168-174 | only that user's coins change; an unknown id changes nothing |
| Storage.MemStorage.UpdateUserPortfolioValue | storage.ts:176-182 | only that user's portfolio value changes; an unknown id changes nothing |
| Storage.MemStorage.GetAllAthletes | storage.ts:185-187 | every stored athlete exactly once, in increasing id (creation) order |
| Storage.MemStorage.GetAthlete | storage.ts:189-191 | the athlete stored under the id, none iff absent |
| Storage.MemStorage.CreateAthlete | storage.ts:193-212 | a fresh id above every existing one with the `||` defaults applied; no other athlete changes; the counter goes up by one |
| Storage.MemStorage.UpdateAthletePrice | storage.ts:214-221 | the old current price becomes the previous price and the new price the current one; an unknown id changes nothing |
| Storage.MemStorage.UpdateAthleteHotness | storage.ts:223-229 | only that athlete's hotness changes; an unknown id changes nothing |
| Storage.MemStorage.UpdateAthleteTradingVolume | storage.ts:231-237 | only that athlete's trading volume changes; an unknown id changes nothing |
| Storage.MemStorage.GetTrendingAthletes | storage.ts:239-244 | ten athletes (or all), by volume descending with a missing volume as 0, each stored, none listed twice, none below an athlete left out; equal volumes keep creation order, and the cut keeps the earlier-created of a tie |
| Storage.MemStorage.GetUserPortfolio | storage.ts:247-250 | exactly the user's stored holdings, each once, in increasing id (creation) order |
| Storage.MemStorage.GetPortfolioHolding | storage.ts:252-255 | a stored holding of that (user, athlete) pair, none iff the pair has no holding |
| Storage.MemStorage.CreatePortfolioHolding | storage.ts:257-271 | a fresh id above every existing one; no other holding changes; the counter goes up by one |
| Storage.MemStorage.UpdatePortfolioHolding | storage.ts:273-282 | only shares, average cost and total value of that holding change; an unknown id changes nothing |
| Storage.MemStorage.DeletePortfolioHolding | storage.ts:284-286 | exactly that key is removed and every other holding is untouched |
| Storage.MemStorage.CreateTrade | storage.ts:289-298 | a fresh id above every existing one, stamped with the clock reading; no other trade changes; the counter goes up by one |
| Storage.MemStorage.GetUserTrades | storage.ts:300-305 | `limit` (default 50) of the user's trades, or all of them when there are fewer, newest first, none listed twice, none older than one left out; trades stamped at the same time keep creation order, and the cut keeps the earlier-created of a tie |
| Storage.MemStorage.GetRecentTrades | storage.ts:307-311 | the `limit` (default 50) newest stored trades, or all of them when there are fewer, newest first, none listed twice, none older than a trade left out; trades stamped at the same time keep creation order, and the cut keeps the earlier-created of a tie |
| Storage.MemStorage.GetTopTraders | storage.ts:314-318 | `limit` (default 10) users, or all of them when there are fewer, by stored portfolio value descending, none listed twice, none ranked below a user left out; equal values keep creation order, and the cut keeps the earlier-created of a tie (so with every value 0.00 the first `limit` users by id) |
| Routes.Register | routes.ts:12-18 | registration on the store does exactly what `RegisterStep` does and keeps the store valid |
| Routes.MarkedValue | routes.ts:137-143 | a holding's stored total value is whole cents within half a cent of shares × price |
| Routes.AverageCostAfterBuy | routes.ts:135-142 | the new average cost is whole cents within half a cent of (old average × old shares + subtotal) / new shares |
| Routes.ApplyBuy | routes.ts:128-153 | the buy's updates on the store (debit, then update or create the holding) produce exactly the snapshot `Bought`, and every holding keeps positive shares |
| Routes.ApplySell | routes.ts:160-178 | the sell's updates on the store (credit, then delete or update the holding) produce exactly the snapshot `Sold`; a sale of no more than is held keeps every holding's shares positive |
| Routes.ApplyRecord | routes.ts:181-194 | appending the trade record and raising the volume produce exactly the snapshot `Recorded` |
| Routes.ExecuteTrade | routes.ts:98-200 | the handler on the store returns and leaves exactly what `TradeStep` gives, keeps the store valid and keeps every holding's shares positive, so trades can follow one another on the same store |
| LedgerProperties.EmptyStoreIsLedger | storage.ts:52-60 | the empty store satisfies the ledger invariant |
| LedgerProperties.BoughtKeepsLedger | routes.ts:128-153 | a covered buy keeps the invariant: balance still non-negative whole cents, at most one holding per pair |
| LedgerProperties.SoldKeepsLedger | routes.ts:160-178 | a covered sale keeps the invariant, surviving holdings keeping positive shares |
| LedgerProperties.RecordedKeepsLedger | routes.ts:181-194 | appending the record and raising the volume keep the invariant |
| LedgerProperties.TradePreservesLedger | routes.ts:98-200 | every trade request, executed or refused, keeps the ledger invariant |
| LedgerProperties.TradeOutcomes | routes.ts:100-158 | each refusal happens exactly under its condition, in the handler's order; a refused request leaves the whole store unchanged |
| LedgerProperties.RouteAgreesWithValidateTrade | routes.ts:117-158 | the handler accepts and refuses exactly as the engine's `validateTrade` on the same order |
| LedgerProperties.TradeMovesShares | routes.ts:132-178 | a buy adds its shares to the pair's holding, a sale removes them, a refusal moves none |
| LedgerProperties.OtherPairsUntouched | routes.ts:132-178 | every other (user, athlete) pair keeps its holding |
| LedgerProperties.TradeSettlesCash | routes.ts:117-164 | only the trader's balance changes: a buy debits subtotal + fee and a sale credits subtotal − fee, within the half cent of rounding |
| LedgerProperties.TradeRecordAppended | routes.ts:181-190 | the log only grows; an executed trade appends one record under the next id with the order's fields, the clock reading, and price, amount and fee each rounded to cents |
| LedgerProperties.TradeAddsVolume | routes.ts:192-194 | no price changes; the traded athlete's volume rises by the shares traded, a missing volume counting as 0 |
| LedgerProperties.FirstBuyOpensHolding | routes.ts:145-152 | a first buy opens the pair's holding under the next holding id with the shares bought and the price as average cost |
| LedgerProperties.RepeatBuyUpdatesHolding | routes.ts:134-144 | a further buy replaces the pair's holding, same id, by the holding with the shares added and the cost averaged |
| LedgerProperties.BoughtMoreAveragesCost | routes.ts:135-142 | the new average is within half a cent of the share-weighted mean of old cost and price (fee excluded), and in whole cents lies between them |
| LedgerProperties.SellUpdatesHolding | routes.ts:166-178 | a sale deletes the holding when every share is sold and otherwise updates it in place |
| LedgerProperties.SellKeepsAverageCost | routes.ts:167-178 | the holding a partial sale leaves (see `SellUpdatesHolding`) keeps its id, pair and average cost; its remaining shares are positive and valued at the trade price in whole cents |
| LedgerProperties.BuyThenSellRestoresShares | routes.ts:132-178 | selling back what was just bought is always accepted and restores the shares held; both steps keep the ledger invariant |
| LedgerProperties.RecordAndDebitCanDiffer | routes.ts:129-189 | with 1000.00 coins, one share at 9.00 costs 9.135; the new balance 990.865 rounds up to 990.87 (a debit of 9.13) while the recorded fee 0.135 rounds up to 0.14 (9.00 + 0.14 = 9.14) |
| LedgerProperties.RegisterOutcomes | routes.ts:12-18 | registration is refused iff the name is taken, changing nothing; otherwise the user takes the next id with 10000.00 coins |
| LedgerProperties.RegisterKeepsLedger | routes.ts:12-18 | registration keeps the ledger invariant, in particular unique usernames |
| LedgerProperties.RegisterTwiceRefused | routes.ts:12-18 | registering the same name a second time is refused |

## Left out

- HTTP, Express, status codes and JSON are not modelled. Request parsing is
  modelled only as far as it shapes a trade: a non-positive share count is
  the outcome `InvalidOrder`.
- The model does not cover fractional share counts. Zod's `positive()`
  accepts them, but the holdings column is an integer, so shares are
  integers here.
- The login route, plaintext password comparison and the read-only GET
  routes are not modelled, except through the store queries they call.
- `async`/`await` and the interleaving of concurrent requests are not
  modelled. Each handler runs as one sequential method.
- Binary floating point, `parseFloat` and the string form of amounts are not
  modelled. Amounts are exact reals with an explicit `toFixed(2)`. A NaN
  amount and an invalid `Date` have no counterpart.
- `Math.log` is a parameter of `UpdatePriceBasedOnVolume`. `calculateMarketStats`
  and the market-stats route are not modelled: they depend on the wall clock
  and on string formatting.
- The sample catalogue loaded by the constructor (`initializeData`) is not
  modelled. The store starts empty.
- `createdAt` and `updatedAt` are kept only for trades, the one kind of
  record a query orders by.
- The Drizzle table declarations in schema.ts are used only for field types
  and defaults.
- The React client files are not modelled. Their fee estimates repeat the
  engine's.
- `Money.Round2` rounds a half-cent tie away from zero. `toFixed(2)` rounds
  the nearest double instead, and that double can lie on either side of the
  tie: a fee on an odd whole-dollar subtotal is such a tie. The exact results
  at ties are the model's, not necessarily the program's.
- Storage.MemStorage.GetTopTraders: the ranking uses the cached
  `portfolioValue`, as the code does. It makes no claim that the value is
  current, since no trade updates it.

## Findings

| source | as written | input that shows it | evidently intended | confidence | as-written member | corrected member |
|---|---|---|---|---|---|---|
| athleteData.ts:28 | the position table is a plain object, so `positionMultipliers[position] \|\| positionMultipliers['SF']` answers names inherited from `Object.prototype` with a truthy non-table value | position "constructor": the score is NaN and `Math.max(NaN, 10)` is NaN, not at least 10 | any position outside the table is priced as SF, at least 10 | not executed | AthleteData.IpoPriceAsWritten | AthleteData.CalculateIPOPrice |
| athleteData.ts:49 | the injury table is a plain object, so `injuryWeights[status] \|\| 1.0` returns an inherited property for names such as "constructor" or "valueOf" | status "valueOf": a function is returned instead of a number | any status outside the table gives 1.0 | not executed | AthleteData.InjuryImpactAsWritten | AthleteData.CalculateInjuryImpact |
