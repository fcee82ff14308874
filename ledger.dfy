/**
 * What the trade and registration handlers promise about the ledger, proved
 * on their snapshot functions `TradeStep` and `RegisterStep`. The methods
 * `Routes.ExecuteTrade` and `Routes.Register` are proved equal to those
 * functions, so every property here holds of the store they update.
 *
 * Most lemmas here are not inductive, yet they carry `{:induction false}`:
 * their parameters are datatypes and integers on which Dafny would otherwise
 * try induction of its own, which only slows the proofs down.
 */
module LedgerProperties {
  import opened Collections
  import opened Schema
  import opened Money
  import opened TradingEngine
  import opened Storage
  import opened Routes

  // The ledger invariant

  /** At most one holding per (user, athlete) pair. */
  ghost predicate UniquePairs(holdings: map<int, PortfolioHolding>)
  {
    forall i, j :: i in holdings && j in holdings && IsPair(holdings[i], holdings[j].userId, holdings[j].athleteId) ==> i == j
  }

  /** No two users share a username. */
  ghost predicate UniqueUsernames(users: map<int, User>)
  {
    forall i, j :: i in users && j in users && users[i].username == users[j].username ==> i == j
  }

  /** Holdings name existing users and athletes, and their average cost is whole cents. */
  ghost predicate HoldingsWellFormed(holdings: map<int, PortfolioHolding>, userIds: set<int>, athleteIds: set<int>)
  {
    forall k :: k in holdings ==>
      && holdings[k].userId in userIds
      && holdings[k].athleteId in athleteIds
      && IsCents(holdings[k].averageCost)
  }

  /** Trades name existing users and athletes and moved a positive number of shares. */
  ghost predicate TradesWellFormed(trades: map<int, Trade>, userIds: set<int>, athleteIds: set<int>)
  {
    forall k :: k in trades ==>
      trades[k].shares > 0 && trades[k].userId in userIds && trades[k].athleteId in athleteIds
  }

  /** Every balance is a non-negative whole number of cents. */
  ghost predicate BalancesWellFormed(users: map<int, User>)
  {
    forall k :: k in users ==> users[k].coins >= 0.0 && IsCents(users[k].coins)
  }

  ghost predicate PricesNonNegative(athletes: map<int, Athlete>)
  {
    forall k :: k in athletes ==> athletes[k].currentPrice >= 0.0
  }

  ghost predicate LedgerInv(s: StoreState)
  {
    && StoreValid(s)
    && SharesPositive(s.holdings) && UniquePairs(s.holdings)
    && HoldingsWellFormed(s.holdings, s.users.Keys, s.athletes.Keys)
    && TradesWellFormed(s.trades, s.users.Keys, s.athletes.Keys)
    && BalancesWellFormed(s.users) && UniqueUsernames(s.users)
    && PricesNonNegative(s.athletes)
  }

  /** The shares a user holds in an athlete: those of the pair's holding, or none. */
  function SharesHeld(s: StoreState, userId: int, athleteId: int): int
    requires StoreValid(s)
  {
    match HoldingOf(s.holdings, s.nextHoldingId, userId, athleteId)
    case Some(h) => h.shares
    case None => 0
  }

  /** The store a fresh `MemStorage` starts from satisfies the invariant. */
  lemma EmptyStoreIsLedger()
    ensures LedgerInv(StoreState(map[], map[], map[], map[], 1, 1, 1, 1))
  {
  }

  // Lookups under the invariant

  /** With unique pairs, the lookup finds the one holding of the pair. */
  lemma HoldingOfIs(holdings: map<int, PortfolioHolding>, next: int, userId: int, athleteId: int, k: int)
    requires forall k :: k in holdings ==> 1 <= k < next && holdings[k].id == k
    requires UniquePairs(holdings)
    requires k in holdings && IsPair(holdings[k], userId, athleteId)
    ensures HoldingOf(holdings, next, userId, athleteId) == Some(holdings[k])
  {
    var r := HoldingOf(holdings, next, userId, athleteId);
    assert r.Some?;
    assert IsPair(holdings[r.value.id], holdings[k].userId, holdings[k].athleteId);
  }

  /**
   * Two holding maps that agree except at key `k0`, where both hold (if
   * anything) a holding of pair (u0, a0), answer the same for every other pair.
   */
  lemma HoldingOfUnaffected(h1: map<int, PortfolioHolding>, n1: int, h2: map<int, PortfolioHolding>, n2: int,
                            k0: int, u0: int, a0: int, userId: int, athleteId: int)
    requires forall k :: k in h1 ==> 1 <= k < n1 && h1[k].id == k
    requires forall k :: k in h2 ==> 1 <= k < n2 && h2[k].id == k
    requires UniquePairs(h1) && UniquePairs(h2)
    requires forall k :: k != k0 ==> (k in h1 <==> k in h2)
    requires forall k :: k != k0 && k in h1 ==> h1[k] == h2[k]
    requires k0 in h1 ==> IsPair(h1[k0], u0, a0)
    requires k0 in h2 ==> IsPair(h2[k0], u0, a0)
    requires !(userId == u0 && athleteId == a0)
    ensures HoldingOf(h1, n1, userId, athleteId) == HoldingOf(h2, n2, userId, athleteId)
  {
    var r1 := HoldingOf(h1, n1, userId, athleteId);
    var r2 := HoldingOf(h2, n2, userId, athleteId);
    if r1.Some? {
      HoldingOfIs(h2, n2, userId, athleteId, r1.value.id);
    }
  }

  // The invariant under single-entry map updates

  lemma ReplaceKeepsUniquePairs(holdings: map<int, PortfolioHolding>, k: int, h: PortfolioHolding)
    requires UniquePairs(holdings) && k in holdings
    requires IsPair(h, holdings[k].userId, holdings[k].athleteId)
    ensures UniquePairs(holdings[k := h])
  {
    var m := holdings[k := h];
    forall i, j | i in m && j in m && IsPair(m[i], m[j].userId, m[j].athleteId)
      ensures i == j
    {
      assert IsPair(holdings[i], holdings[j].userId, holdings[j].athleteId);
    }
  }

  lemma AddKeepsUniquePairs(holdings: map<int, PortfolioHolding>, k: int, h: PortfolioHolding)
    requires UniquePairs(holdings) && k !in holdings
    requires forall j :: j in holdings ==> !IsPair(holdings[j], h.userId, h.athleteId)
    ensures UniquePairs(holdings[k := h])
  {
    var m := holdings[k := h];
    forall i, j | i in m && j in m && IsPair(m[i], m[j].userId, m[j].athleteId)
      ensures i == j
    {
      if i != k && j != k {
        assert IsPair(holdings[i], holdings[j].userId, holdings[j].athleteId);
      } else if i == k && j != k {
        assert IsPair(holdings[j], h.userId, h.athleteId);
      }
    }
  }

  lemma SetCoinsKeepsBalances(users: map<int, User>, id: int, coins: real)
    requires BalancesWellFormed(users) && UniqueUsernames(users) && id in users
    requires coins >= 0.0 && IsCents(coins)
    ensures BalancesWellFormed(users[id := users[id].(coins := coins)])
    ensures UniqueUsernames(users[id := users[id].(coins := coins)])
  {
    var m := users[id := users[id].(coins := coins)];
    forall i, j | i in m && j in m && m[i].username == m[j].username
      ensures i == j
    {
      assert users[i].username == users[j].username;
    }
  }

  // The invariant is preserved, piece by piece

  lemma {:induction false} BoughtKeepsLedger(s: StoreState, req: TradeRequest, price: real, cost: OrderCost)
    requires LedgerInv(s) && req.shares > 0
    requires req.userId in s.users && req.athleteId in s.athletes
    requires s.users[req.userId].coins >= cost.total
    ensures LedgerInv(Bought(s, req, price, cost))
  {
    var user := s.users[req.userId];
    var coins := Round2(user.coins - cost.total);
    Round2Close(user.coins - cost.total);
    Round2NonNegative(user.coins - cost.total);
    SetCoinsKeepsBalances(s.users, req.userId, coins);
    var s' := Bought(s, req, price, cost);
    assert s'.users == s.users[req.userId := user.(coins := coins)];
    match HoldingOf(s.holdings, s.nextHoldingId, req.userId, req.athleteId)
    case Some(h) =>
      var h' := BoughtMore(h, req.shares, cost.subtotal, price);
      assert s'.holdings == s.holdings[h.id := h'];
      ReplaceKeepsUniquePairs(s.holdings, h.id, h');

    case None =>
      var h' := FirstHolding(s.nextHoldingId, req, price, cost.subtotal);
      Round2Close(price);
      assert s'.holdings == s.holdings[s.nextHoldingId := h'];
      AddKeepsUniquePairs(s.holdings, s.nextHoldingId, h');
  }

  lemma {:induction false} SoldKeepsLedger(s: StoreState, req: TradeRequest, h: PortfolioHolding, price: real)
    requires LedgerInv(s) && req.shares > 0 && price >= 0.0
    requires req.userId in s.users
    requires h.id in s.holdings && s.holdings[h.id] == h && h.shares >= req.shares
    ensures LedgerInv(Sold(s, req, h, price, CalculateTotalCost(req.shares, price, Sell)))
  {
    var cost := CalculateTotalCost(req.shares, price, Sell);
    var user := s.users[req.userId];
    var coins := Round2(user.coins + cost.total);
    assert cost.subtotal >= 0.0 by {
      assert req.shares as real >= 0.0;
    }
    FeeIsProportional(cost.subtotal, 0.0, 1.0);
    Round2Close(user.coins + cost.total);
    Round2NonNegative(user.coins + cost.total);
    SetCoinsKeepsBalances(s.users, req.userId, coins);
    var s' := Sold(s, req, h, price, cost);
    assert s'.users == s.users[req.userId := user.(coins := coins)];
    if h.shares - req.shares != 0 {
      assert s'.holdings == s.holdings[h.id := SoldSome(h, req.shares, price)];
      ReplaceKeepsUniquePairs(s.holdings, h.id, SoldSome(h, req.shares, price));
    }
  }

  lemma {:induction false} RecordedKeepsLedger(s: StoreState, req: TradeRequest, cost: OrderCost, now: int)
    requires LedgerInv(s) && req.shares > 0
    requires req.userId in s.users && req.athleteId in s.athletes
    ensures LedgerInv(Recorded(s, req, s.athletes[req.athleteId], cost, now).1)
  {
    var s' := Recorded(s, req, s.athletes[req.athleteId], cost, now).1;
    assert s'.athletes.Keys == s.athletes.Keys;
    assert s.nextTradeId !in s.trades;
  }

  /** Every trade request, executed or refused, leaves the ledger invariant intact. */
  lemma {:induction false} TradePreservesLedger(s: StoreState, req: TradeRequest, now: int)
    requires LedgerInv(s)
    ensures LedgerInv(TradeStep(s, req, now).1)
  {
    if Refusal(s, req).None? {
      var price := s.athletes[req.athleteId].currentPrice;
      var cost := OrderCostOf(s, req);
      var mid := Settled(s, req);
      assert mid.athletes == s.athletes by {
        SettledFacts(s, req);
      }
      assert LedgerInv(mid) by {
        if req.kind == Buy {
          BoughtKeepsLedger(s, req, price, cost);
        } else {
          var h := HoldingOf(s.holdings, s.nextHoldingId, req.userId, req.athleteId).value;
          SoldKeepsLedger(s, req, h, price);
        }
      }
      RecordedKeepsLedger(mid, req, cost, now);
      var after := Recorded(mid, req, s.athletes[req.athleteId], cost, now).1;
      assert LedgerInv(after);
      assert TradeStep(s, req, now).1 == after;
    } else {
      assert TradeStep(s, req, now).1 == s;
    }
  }

  // The pieces of an accepted trade

  /** Settling touches only the trader's coins and the pair's holding. */
  lemma SettledFacts(s: StoreState, req: TradeRequest)
    requires StoreValid(s) && SharesPositive(s.holdings) && Refusal(s, req).None?
    ensures var mid := Settled(s, req);
      var user := s.users[req.userId];
      var total := OrderCostOf(s, req).total;
      && mid.athletes == s.athletes && mid.trades == s.trades && mid.nextTradeId == s.nextTradeId
      && (req.kind == Buy ==> mid.users == s.users[req.userId := user.(coins := Round2(user.coins - total))])
      && (req.kind == Sell ==> mid.users == s.users[req.userId := user.(coins := Round2(user.coins + total))])
  {
  }

  /** The key of the pair's holding: the existing one, or the one a first purchase takes. */
  function PairKey(s: StoreState, req: TradeRequest): int
    requires StoreValid(s)
  {
    match HoldingOf(s.holdings, s.nextHoldingId, req.userId, req.athleteId)
    case Some(h) => h.id
    case None => s.nextHoldingId
  }

  /** Settling changes the holdings map at the pair's key only, by the shares traded. */
  lemma {:induction false} SettledHoldings(s: StoreState, req: TradeRequest)
    requires LedgerInv(s) && Refusal(s, req).None?
    ensures var mid := Settled(s, req);
      var k0 := PairKey(s, req);
      var held := SharesHeld(s, req.userId, req.athleteId);
      && (forall k :: k != k0 ==> (k in mid.holdings <==> k in s.holdings))
      && (forall k :: k != k0 && k in s.holdings ==> mid.holdings[k] == s.holdings[k])
      && (k0 in s.holdings ==> IsPair(s.holdings[k0], req.userId, req.athleteId))
      && (k0 in mid.holdings ==> IsPair(mid.holdings[k0], req.userId, req.athleteId))
      && (req.kind == Buy ==> k0 in mid.holdings && mid.holdings[k0].shares == held + req.shares)
      && (req.kind == Sell ==> k0 in s.holdings)
      && (req.kind == Sell && held == req.shares ==> k0 !in mid.holdings)
      && (req.kind == Sell && held != req.shares ==> k0 in mid.holdings && mid.holdings[k0].shares == held - req.shares)
  {
    var mid := Settled(s, req);
    var price := s.athletes[req.athleteId].currentPrice;
    var cost := OrderCostOf(s, req);
    match HoldingOf(s.holdings, s.nextHoldingId, req.userId, req.athleteId)
    case Some(h) =>
      if req.kind == Buy {
        assert mid.holdings == s.holdings[h.id := BoughtMore(h, req.shares, cost.subtotal, price)];
      } else if h.shares == req.shares {
        assert mid.holdings == s.holdings - {h.id};
      } else {
        assert mid.holdings == s.holdings[h.id := SoldSome(h, req.shares, price)];
      }
    case None =>
      assert mid.holdings == s.holdings[s.nextHoldingId := FirstHolding(s.nextHoldingId, req, price, cost.subtotal)];
  }

  /** Recording leaves coins and holdings alone, appends the trade and bumps the athlete's volume. */
  lemma RecordedFacts(s: StoreState, req: TradeRequest, athlete: Athlete, cost: OrderCost, now: int)
    ensures var r := Recorded(s, req, athlete, cost, now);
      && r.1.users == s.users && r.1.holdings == s.holdings && r.1.nextHoldingId == s.nextHoldingId
      && r.0 == Executed(TradeRecord(s.nextTradeId, req, athlete.currentPrice, cost, now))
      && r.1.trades == s.trades[s.nextTradeId := r.0.trade] && r.1.nextTradeId == s.nextTradeId + 1
      && r.1.athletes == s.athletes[req.athleteId :=
           athlete.(tradingVolume := Some(VolumeOrZero(athlete.tradingVolume) + req.shares))]
  {
  }

  /**
   * The route's refusals, each exactly under its condition and in the
   * route's order (shares, athlete, user, then coins or shares held); a
   * refused request changes nothing.
   */
  lemma TradeOutcomes(s: StoreState, req: TradeRequest, now: int)
    requires StoreValid(s) && SharesPositive(s.holdings)
    ensures var r := TradeStep(s, req, now);
      && (!r.0.Executed? ==> r.1 == s)
      && (r.0 == InvalidOrder <==> req.shares <= 0)
      && (r.0 == AthleteNotFound <==> req.shares > 0 && req.athleteId !in s.athletes)
      && (r.0 == UserNotFound <==> req.shares > 0 && req.athleteId in s.athletes && req.userId !in s.users)
      && (r.0 == InsufficientCoins <==>
            && req.shares > 0 && req.athleteId in s.athletes && req.userId in s.users && req.kind == Buy
            && s.users[req.userId].coins < CalculateTotalCost(req.shares, s.athletes[req.athleteId].currentPrice, Buy).total)
      && (r.0 == InsufficientShares <==>
            && req.shares > 0 && req.athleteId in s.athletes && req.userId in s.users && req.kind == Sell
            && SharesHeld(s, req.userId, req.athleteId) < req.shares)
  {
  }

  /** The route accepts and refuses exactly as the engine's `validateTrade` does on the same order. */
  lemma RouteAgreesWithValidateTrade(s: StoreState, req: TradeRequest, now: int)
    requires StoreValid(s) && SharesPositive(s.holdings)
    requires req.athleteId in s.athletes && req.userId in s.users
    ensures var out := TradeStep(s, req, now).0;
      var order := TradeOrder(req.userId, req.athleteId, req.kind, req.shares, s.athletes[req.athleteId].currentPrice);
      var v := ValidateTrade(order, s.users[req.userId].coins, SharesHeld(s, req.userId, req.athleteId));
      && (out.Executed? <==> v.Accepted?)
      && (out == InvalidOrder <==> v == Rejected(InvalidNumberOfShares))
      && (out == InsufficientCoins <==> v == Rejected(InsufficientFunds))
      && (out == InsufficientShares <==> v == Rejected(InsufficientSharesToSell))
  {
  }

  /** An executed buy adds its shares to the pair's holding, a sell removes them; a refusal moves none. */
  lemma {:induction false} TradeMovesShares(s: StoreState, req: TradeRequest, now: int)
    requires LedgerInv(s)
    ensures var r := TradeStep(s, req, now);
      && StoreValid(r.1)
      && SharesHeld(r.1, req.userId, req.athleteId) ==
           if !r.0.Executed? then SharesHeld(s, req.userId, req.athleteId)
           else if req.kind == Buy then SharesHeld(s, req.userId, req.athleteId) + req.shares
           else SharesHeld(s, req.userId, req.athleteId) - req.shares
  {
    TradePreservesLedger(s, req, now);
    if Refusal(s, req).None? {
      var u, a := req.userId, req.athleteId;
      var mid := Settled(s, req);
      var k0 := PairKey(s, req);
      var r := TradeStep(s, req, now);
      SettledHoldings(s, req);
      RecordedFacts(mid, req, s.athletes[a], OrderCostOf(s, req), now);
      assert r.1.holdings == mid.holdings && r.1.nextHoldingId == mid.nextHoldingId;
      if k0 in mid.holdings {
        HoldingOfIs(r.1.holdings, r.1.nextHoldingId, u, a, k0);
      } else {
        forall k | k in r.1.holdings ensures !IsPair(r.1.holdings[k], u, a) {
          assert k != k0 && s.holdings[k] == r.1.holdings[k];
          assert IsPair(s.holdings[k0], u, a);
        }
      }
    }
  }

  /** A trade touches only its own (user, athlete) pair: every other pair's holding is as it was. */
  lemma {:induction false} OtherPairsUntouched(s: StoreState, req: TradeRequest, now: int, userId: int, athleteId: int)
    requires LedgerInv(s)
    requires !(userId == req.userId && athleteId == req.athleteId)
    ensures var r := TradeStep(s, req, now);
      && StoreValid(r.1)
      && HoldingOf(r.1.holdings, r.1.nextHoldingId, userId, athleteId) == HoldingOf(s.holdings, s.nextHoldingId, userId, athleteId)
  {
    TradePreservesLedger(s, req, now);
    if Refusal(s, req).None? {
      var mid := Settled(s, req);
      var r := TradeStep(s, req, now);
      SettledHoldings(s, req);
      RecordedFacts(mid, req, s.athletes[req.athleteId], OrderCostOf(s, req), now);
      assert r.1.holdings == mid.holdings && r.1.nextHoldingId == mid.nextHoldingId;
      HoldingOfUnaffected(s.holdings, s.nextHoldingId, r.1.holdings, r.1.nextHoldingId,
        PairKey(s, req), req.userId, req.athleteId, userId, athleteId);
    }
  }

  /**
   * Cash: only the trader's balance changes; a buy debits subtotal + fee and
   * a sale credits subtotal − fee, each to within the half cent of
   * `toFixed(2)`.
   */
  lemma {:induction false} TradeSettlesCash(s: StoreState, req: TradeRequest, now: int)
    requires LedgerInv(s)
    ensures var r := TradeStep(s, req, now);
      && r.1.users.Keys == s.users.Keys
      && (forall k :: k in s.users && k != req.userId ==> r.1.users[k] == s.users[k])
      && (r.0.Executed? ==> req.userId in s.users && req.athleteId in s.athletes)
      && (r.0.Executed? ==>
            var user, user' := s.users[req.userId], r.1.users[req.userId];
            var cost := CalculateTotalCost(req.shares, s.athletes[req.athleteId].currentPrice, req.kind);
            var exact := if req.kind == Buy then user.coins - (cost.subtotal + cost.fee)
                         else user.coins + (cost.subtotal - cost.fee);
            && user' == user.(coins := user'.coins)
            && -0.005 <= user'.coins - exact <= 0.005)
  {
    if Refusal(s, req).None? {
      var user := s.users[req.userId];
      var cost := OrderCostOf(s, req);
      var mid := Settled(s, req);
      SettledFacts(s, req);
      RecordedFacts(mid, req, s.athletes[req.athleteId], cost, now);
      Round2Close(user.coins - cost.total);
      Round2Close(user.coins + cost.total);
    }
  }

  /**
   * The trade log only grows: an executed trade appends one record under
   * the next trade id, carrying the order and the clock reading, its price,
   * amount and fee each the whole-cent rounding of the exact figure.
   */
  lemma {:induction false} TradeRecordAppended(s: StoreState, req: TradeRequest, now: int)
    requires LedgerInv(s)
    ensures var r := TradeStep(s, req, now);
      && (forall k :: k in s.trades ==> k in r.1.trades && r.1.trades[k] == s.trades[k])
      && (!r.0.Executed? ==> r.1.trades == s.trades && r.1.nextTradeId == s.nextTradeId)
      && (r.0.Executed? ==> req.athleteId in s.athletes)
      && (r.0.Executed? ==>
            var t := r.0.trade;
            var cost := OrderCostOf(s, req);
            && t.id == s.nextTradeId && t.id !in s.trades
            && r.1.trades == s.trades[t.id := t] && r.1.nextTradeId == s.nextTradeId + 1
            && t.userId == req.userId && t.athleteId == req.athleteId
            && t.kind == req.kind && t.shares == req.shares && t.createdAt == now
            && IsCents(t.pricePerShare) && -0.005 <= t.pricePerShare - s.athletes[req.athleteId].currentPrice <= 0.005
            && IsCents(t.totalAmount) && -0.005 <= t.totalAmount - cost.subtotal <= 0.005
            && IsCents(t.fee) && -0.005 <= t.fee - cost.fee <= 0.005)
  {
    if Refusal(s, req).None? {
      var cost := OrderCostOf(s, req);
      var mid := Settled(s, req);
      SettledFacts(s, req);
      RecordedFacts(mid, req, s.athletes[req.athleteId], cost, now);
      assert s.nextTradeId !in s.trades;
      Round2Close(s.athletes[req.athleteId].currentPrice);
      Round2Close(cost.subtotal);
      Round2Close(cost.fee);
    }
  }

  /**
   * Athletes: no price changes, and an executed trade adds its shares to
   * the traded athlete's volume (a missing volume counting as 0).
   */
  lemma TradeAddsVolume(s: StoreState, req: TradeRequest, now: int)
    requires LedgerInv(s)
    ensures var r := TradeStep(s, req, now);
      && r.1.athletes.Keys == s.athletes.Keys
      && (forall k :: k in s.athletes ==> r.1.athletes[k].currentPrice == s.athletes[k].currentPrice)
      && (forall k :: k in s.athletes && k != req.athleteId ==> r.1.athletes[k] == s.athletes[k])
      && (r.0.Executed? ==> req.athleteId in s.athletes)
      && (r.0.Executed? ==>
            var before := s.athletes[req.athleteId];
            var after := r.1.athletes[req.athleteId];
            && after == before.(tradingVolume := after.tradingVolume)
            && VolumeOrZero(after.tradingVolume) == VolumeOrZero(before.tradingVolume) + req.shares)
  {
    if Refusal(s, req).None? {
      var mid := Settled(s, req);
      SettledFacts(s, req);
      RecordedFacts(mid, req, s.athletes[req.athleteId], OrderCostOf(s, req), now);
    }
  }

  /** The weighted average of two prices lies between them. */
  lemma {:induction false} WeightedAverageBetween(a: real, m: int, p: real, n: int)
    requires m > 0 && n > 0
    ensures var x := (a * m as real + n as real * p) / (m + n) as real;
      && (a <= p ==> a <= x <= p)
      && (p <= a ==> p <= x <= a)
  {
    var t := (m + n) as real;
    var x := (a * m as real + n as real * p) / t;
    assert x * t == a * m as real + n as real * p;
    if a <= p {
      assert n as real * a <= n as real * p;
      assert m as real * a <= m as real * p;
      assert a * t <= x * t <= p * t;
    }
    if p <= a {
      assert n as real * p <= n as real * a;
      assert m as real * p <= m as real * a;
      assert p * t <= x * t <= a * t;
    }
  }

  /** The stored average after a purchase: the exact weighted mean to within half a cent, between old cost and price. */
  lemma {:induction false} AverageCostAfterBuyFacts(a: real, m: int, subtotal: real, p: real, n: int)
    requires m > 0 && n > 0 && subtotal == n as real * p
    ensures var avg := AverageCostAfterBuy(a, m, subtotal, m + n);
      var exact := (a * m as real + subtotal) / (m + n) as real;
      && -0.005 <= avg - exact <= 0.005
      && (IsCents(a) && IsCents(p) && a <= p ==> a <= avg <= p)
      && (IsCents(a) && IsCents(p) && p <= a ==> p <= avg <= a)
  {
    var exact := (a * m as real + subtotal) / (m + n) as real;
    WeightedAverageBetween(a, m, p, n);
    if IsCents(a) && IsCents(p) {
      if a <= p {
        Round2Between(a, exact, p);
      } else {
        Round2Between(p, exact, a);
      }
    }
  }

  /** A first purchase opens the pair's holding under the next holding id, its average cost the price paid. */
  lemma {:induction false} FirstBuyOpensHolding(s: StoreState, req: TradeRequest, now: int)
    requires LedgerInv(s) && req.kind == Buy
    requires req.userId in s.users && req.athleteId in s.athletes && Refusal(s, req).None?
    requires HoldingOf(s.holdings, s.nextHoldingId, req.userId, req.athleteId).None?
    ensures var s' := TradeStep(s, req, now).1;
      var price := s.athletes[req.athleteId].currentPrice;
      && s.nextHoldingId !in s.holdings && s.nextHoldingId in s'.holdings
      && s'.nextHoldingId == s.nextHoldingId + 1
      && s'.holdings[s.nextHoldingId]
         == PortfolioHolding(s.nextHoldingId, req.userId, req.athleteId, req.shares,
                             Round2(price), Round2(OrderCostOf(s, req).subtotal))
  {
    var price := s.athletes[req.athleteId].currentPrice;
    var cost := OrderCostOf(s, req);
    var mid := Settled(s, req);
    RecordedFacts(mid, req, s.athletes[req.athleteId], cost, now);
    assert mid.holdings == s.holdings[s.nextHoldingId := FirstHolding(s.nextHoldingId, req, price, cost.subtotal)];
  }

  /** A further purchase replaces the pair's holding, under the same id, by `BoughtMore` of it. */
  lemma {:induction false} RepeatBuyUpdatesHolding(s: StoreState, req: TradeRequest, now: int, h: PortfolioHolding)
    requires LedgerInv(s) && req.kind == Buy
    requires req.userId in s.users && req.athleteId in s.athletes && Refusal(s, req).None?
    requires HoldingOf(s.holdings, s.nextHoldingId, req.userId, req.athleteId) == Some(h)
    ensures var s' := TradeStep(s, req, now).1;
      && h.shares > 0
      && s'.holdings == s.holdings[h.id := BoughtMore(h, req.shares, OrderCostOf(s, req).subtotal, s.athletes[req.athleteId].currentPrice)]
      && s'.nextHoldingId == s.nextHoldingId
  {
    var mid := Settled(s, req);
    RecordedFacts(mid, req, s.athletes[req.athleteId], OrderCostOf(s, req), now);
  }

  /**
   * What `BoughtMore` makes of a holding when `shares` more are bought at
   * `price` (subtotal `shares * price`): same id and pair, the shares added,
   * and an average cost within half a cent of the share-weighted mean of old
   * cost and price paid (fee excluded); so, in whole cents, the new average
   * lies between the old one and the price.
   */
  lemma {:induction false} BoughtMoreAveragesCost(h: PortfolioHolding, shares: int, price: real)
    requires h.shares > 0 && shares > 0
    ensures var h' := BoughtMore(h, shares, shares as real * price, price);
      var newShares := h.shares + shares;
      && h'.id == h.id && h'.userId == h.userId && h'.athleteId == h.athleteId
      && h'.shares == newShares
      && -0.005 <= h'.averageCost - (h.averageCost * h.shares as real + shares as real * price) / newShares as real <= 0.005
      && (IsCents(h.averageCost) && IsCents(price) && h.averageCost <= price ==> h.averageCost <= h'.averageCost <= price)
      && (IsCents(h.averageCost) && IsCents(price) && price <= h.averageCost ==> price <= h'.averageCost <= h.averageCost)
  {
    AverageCostAfterBuyFacts(h.averageCost, h.shares, shares as real * price, price, shares);
  }

  /** A sale removes the pair's holding when it sells every share, and otherwise replaces it by `SoldSome` of it. */
  lemma {:induction false} SellUpdatesHolding(s: StoreState, req: TradeRequest, now: int)
    requires LedgerInv(s) && req.kind == Sell
    requires req.userId in s.users && req.athleteId in s.athletes && Refusal(s, req).None?
    ensures HoldingOf(s.holdings, s.nextHoldingId, req.userId, req.athleteId).Some?
    ensures var h := HoldingOf(s.holdings, s.nextHoldingId, req.userId, req.athleteId).value;
      var s' := TradeStep(s, req, now).1;
      && h.id in s.holdings && h.shares >= req.shares
      && (h.shares == req.shares ==> s'.holdings == s.holdings - {h.id})
      && (h.shares != req.shares ==>
            s'.holdings == s.holdings[h.id := SoldSome(h, req.shares, s.athletes[req.athleteId].currentPrice)])
  {
    var mid := Settled(s, req);
    RecordedFacts(mid, req, s.athletes[req.athleteId], OrderCostOf(s, req), now);
  }

  /**
   * Selling part of a holding keeps its average cost; the remaining shares
   * are valued at the trade price. Together with `SellUpdatesHolding` this is
   * what a partial sale does to the pair's holding.
   */
  lemma SellKeepsAverageCost(h: PortfolioHolding, shares: int, price: real)
    requires 0 < shares < h.shares
    ensures var h' := SoldSome(h, shares, price);
      && h'.id == h.id && h'.userId == h.userId && h'.athleteId == h.athleteId
      && h'.averageCost == h.averageCost
      && h'.shares == h.shares - shares > 0
      && IsCents(h'.totalValue)
      && -0.005 <= h'.totalValue - (h.shares - shares) as real * price <= 0.005
  {
  }

  /**
   * Buying shares and selling them straight back is always accepted and
   * restores the shares held in the pair.
   */
  lemma {:induction false} BuyThenSellRestoresShares(s: StoreState, req: TradeRequest, t1: int, t2: int)
    requires LedgerInv(s) && req.kind == Buy
    requires TradeStep(s, req, t1).0.Executed?
    ensures LedgerInv(TradeStep(s, req, t1).1)
    ensures LedgerInv(TradeStep(TradeStep(s, req, t1).1, req.(kind := Sell), t2).1)
    ensures var s1 := TradeStep(s, req, t1).1;
      var r2 := TradeStep(s1, req.(kind := Sell), t2);
      && r2.0.Executed?
      && SharesHeld(r2.1, req.userId, req.athleteId) == SharesHeld(s, req.userId, req.athleteId)
  {
    var sell := req.(kind := Sell);
    TradePreservesLedger(s, req, t1);
    TradeMovesShares(s, req, t1);
    TradeAddsVolume(s, req, t1);
    var s1 := TradeStep(s, req, t1).1;
    assert SharesHeld(s1, req.userId, req.athleteId) >= req.shares by {
      assert SharesHeld(s, req.userId, req.athleteId) >= 0;
    }
    TradePreservesLedger(s1, sell, t2);
    TradeOutcomes(s1, sell, t2);
    TradeMovesShares(s1, sell, t2);
  }

  /**
   * A buy rounds the new balance, while the record rounds the amount and the
   * fee on their own: buying one share at 9.00 with 1000.00 coins costs
   * 9.135, the balance 990.865 rounds up to 990.87 (a debit of 9.13) and the
   * fee 0.135 rounds up to 0.14, so the record says 9.00 + 0.14 = 9.14.
   */
  lemma RecordAndDebitCanDiffer()
    ensures var athlete := Athlete(1, "A", "PG", "T", "NBA", 9.0, None, None, None, None, None, None);
      var s := StoreState(map[1 := User(1, "u", "p", 1000.0, 0.0)], map[1 := athlete], map[], map[], 2, 2, 1, 1);
      var r := TradeStep(s, TradeRequest(1, 1, Buy, 1), 0);
      && r.0.Executed?
      && r.0.trade.totalAmount == 9.0 && r.0.trade.fee == 0.14
      && 1 in r.1.users && r.1.users[1].coins == 990.87
  {
    assert (1000.0 - 9.135) * 100.0 + 0.5 == 99087.0;
    assert 0.135 * 100.0 + 0.5 == 14.0;
    assert 9.0 * 100.0 + 0.5 == 900.5;
  }

  // Registration

  /**
   * Registration refuses exactly the names already taken and changes
   * nothing then; otherwise the new user takes the next id with 10000.00
   * coins and a portfolio value of 0.00.
   */
  lemma RegisterOutcomes(s: StoreState, username: string, password: string)
    requires StoreValid(s)
    ensures var r := RegisterStep(s, username, password);
      && (r.0 == UsernameTaken <==> exists k :: k in s.users && s.users[k].username == username)
      && (r.0 == UsernameTaken ==> r.1 == s)
      && (r.0.Registered? ==>
            && r.0.user.id == s.nextUserId && r.0.user.id !in s.users
            && r.0.user.username == username && r.0.user.password == password
            && r.0.user.coins == 10000.00 && r.0.user.portfolioValue == 0.00
            && r.1 == s.(users := s.users[r.0.user.id := r.0.user], nextUserId := s.nextUserId + 1))
  {
  }

  /** Registration keeps the ledger invariant, in particular that usernames are unique. */
  lemma {:induction false} RegisterKeepsLedger(s: StoreState, username: string, password: string)
    requires LedgerInv(s)
    ensures LedgerInv(RegisterStep(s, username, password).1)
  {
    var r := RegisterStep(s, username, password);
    if r.0.Registered? {
      var user := r.0.user;
      assert user.id !in s.users;
      assert IsCents(10000.00) by {
        assert 10000.00 * 100.0 == 1000000.0;
      }
      forall i, j | i in r.1.users && j in r.1.users && r.1.users[i].username == r.1.users[j].username
        ensures i == j
      {
        if i != user.id && j != user.id {
          assert s.users[i].username == s.users[j].username;
        }
      }
    }
  }

  /** Once a name is registered, registering it again is refused. */
  lemma {:induction false} RegisterTwiceRefused(s: StoreState, username: string, p1: string, p2: string)
    requires StoreValid(s)
    requires RegisterStep(s, username, p1).0.Registered?
    ensures StoreValid(RegisterStep(s, username, p1).1)
    ensures RegisterStep(RegisterStep(s, username, p1).1, username, p2).0 == UsernameTaken
  {
    var s1 := RegisterStep(s, username, p1).1;
    var user := RegisterStep(s, username, p1).0.user;
    assert s1.users[user.id].username == username;
  }
}
