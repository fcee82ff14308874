/**
 * The two request handlers that change the store: registration (with its
 * duplicate-username check) and trade execution. Each is a method over the
 * store that performs the handler's reads and in-place updates in order,
 * proved equal to a function on store snapshots (`RegisterStep`,
 * `TradeStep`); the ledger's properties are proved about those functions in
 * module LedgerProperties.
 */
module Routes {
  import opened Collections
  import opened Schema
  import opened Money
  import opened TradingEngine
  import opened Storage

  // Registration

  datatype RegisterOutcome = UsernameTaken | Registered(user: User)

  /** Registration refuses a name already in use; otherwise it creates the user. */
  function RegisterStep(s: StoreState, username: string, password: string): (RegisterOutcome, StoreState)
    requires StoreValid(s)
  {
    match UserWithName(s.users, s.nextUserId, username)
    case Some(_) => (UsernameTaken, s)
    case None =>
      var user := NewUser(s.nextUserId, username, password);
      (Registered(user), s.(users := s.users[user.id := user], nextUserId := s.nextUserId + 1))
  }

  method Register(store: MemStorage, username: string, password: string) returns (outcome: RegisterOutcome)
    requires store.Valid()
    modifies store
    ensures store.Valid()
    ensures (outcome, store.State()) == RegisterStep(old(store.State()), username, password)
  {
    var existingUser := store.GetUserByUsername(username);
    if existingUser.Some? {
      return UsernameTaken;
    }
    var user := store.CreateUser(username, password);
    outcome := Registered(user);
  }

  // Trading

  datatype TradeRequest = TradeRequest(userId: int, athleteId: int, kind: TradeType, shares: int)

  datatype TradeOutcome =
    | InvalidOrder
    | AthleteNotFound
    | UserNotFound
    | InsufficientCoins
    | InsufficientShares
    | Executed(trade: Trade)

  ghost predicate SharesPositive(holdings: map<int, PortfolioHolding>)
  {
    forall k :: k in holdings ==> holdings[k].shares > 0
  }

  /** `(shares * price).toFixed(2)`: the holding's value at the trade price. */
  function MarkedValue(shares: int, price: real): (r: real)
    ensures IsCents(r) && -0.005 <= r - shares as real * price <= 0.005
  {
    var value := shares as real * price;
    Round2Close(value);
    Round2(value)
  }

  /**
   * `((averageCost * shares + subtotal) / newShares).toFixed(2)`: the average
   * cost weighted over old and new shares; the fee is not part of it.
   */
  function AverageCostAfterBuy(averageCost: real, shares: int, subtotal: real, newShares: int): (r: real)
    requires newShares > 0
    ensures IsCents(r)
    ensures -0.005 <= r - (averageCost * shares as real + subtotal) / newShares as real <= 0.005
  {
    var average := (averageCost * shares as real + subtotal) / newShares as real;
    Round2Close(average);
    Round2(average)
  }

  /** A holding after buying `shares` more for `subtotal` at `price`. */
  function BoughtMore(h: PortfolioHolding, shares: int, subtotal: real, price: real): PortfolioHolding
    requires h.shares + shares > 0
  {
    var newShares := h.shares + shares;
    h.(shares := newShares,
       averageCost := AverageCostAfterBuy(h.averageCost, h.shares, subtotal, newShares),
       totalValue := MarkedValue(newShares, price))
  }

  /** The first holding of a user in an athlete: bought at `price`, which is its average cost. */
  function FirstHolding(id: int, req: TradeRequest, price: real, subtotal: real): PortfolioHolding
  {
    NewHolding(id, InsertPortfolioHolding(req.userId, req.athleteId, req.shares, Round2(price), Round2(subtotal)))
  }

  /** A holding after selling `shares` of it at `price`; the average cost stays. */
  function SoldSome(h: PortfolioHolding, shares: int, price: real): PortfolioHolding
  {
    var newShares := h.shares - shares;
    h.(shares := newShares, totalValue := MarkedValue(newShares, price))
  }

  /** The trade record a request leaves behind. */
  function TradeRecord(id: int, req: TradeRequest, price: real, cost: OrderCost, now: int): Trade
  {
    NewTrade(id, InsertTrade(req.userId, req.athleteId, req.kind, req.shares,
      Round2(price), Round2(cost.subtotal), Round2(cost.fee)), now)
  }

  /** The common tail of a trade: append the record, then add the shares to the athlete's volume. */
  function Recorded(s: StoreState, req: TradeRequest, athlete: Athlete, cost: OrderCost, now: int)
    : (TradeOutcome, StoreState)
  {
    var trade := TradeRecord(s.nextTradeId, req, athlete.currentPrice, cost, now);
    var newVolume := VolumeOrZero(athlete.tradingVolume) + req.shares;
    (Executed(trade),
     s.(trades := s.trades[trade.id := trade], nextTradeId := s.nextTradeId + 1,
        athletes := s.athletes[req.athleteId := athlete.(tradingVolume := Some(newVolume))]))
  }

  /** Coins and holding after a purchase the user can afford (the steps between the balance check and the trade record). */
  function Bought(s: StoreState, req: TradeRequest, price: real, cost: OrderCost): StoreState
    requires StoreValid(s) && SharesPositive(s.holdings)
    requires req.shares > 0 && req.userId in s.users
  {
    var user := s.users[req.userId];
    var s1 := s.(users := s.users[req.userId := user.(coins := Round2(user.coins - cost.total))]);
    match HoldingOf(s.holdings, s.nextHoldingId, req.userId, req.athleteId)
    case Some(h) =>
      s1.(holdings := s1.holdings[h.id := BoughtMore(h, req.shares, cost.subtotal, price)])
    case None =>
      s1.(holdings := s1.holdings[s1.nextHoldingId := FirstHolding(s1.nextHoldingId, req, price, cost.subtotal)],
          nextHoldingId := s1.nextHoldingId + 1)
  }

  /** Coins and holding after a sale of `req.shares` out of holding `h`; a holding sold out is deleted. */
  function Sold(s: StoreState, req: TradeRequest, h: PortfolioHolding, price: real, cost: OrderCost): StoreState
    requires req.userId in s.users
  {
    var user := s.users[req.userId];
    var s1 := s.(users := s.users[req.userId := user.(coins := Round2(user.coins + cost.total))]);
    if h.shares - req.shares == 0 then s1.(holdings := s1.holdings - {h.id})
    else s1.(holdings := s1.holdings[h.id := SoldSome(h, req.shares, price)])
  }

  /** What the order costs at the athlete's current price. */
  function OrderCostOf(s: StoreState, req: TradeRequest): OrderCost
    requires req.athleteId in s.athletes
  {
    CalculateTotalCost(req.shares, s.athletes[req.athleteId].currentPrice, req.kind)
  }

  /**
   * The first check the request fails, in the route's order: positive
   * shares, the athlete, the user, then coins for a buy or shares held for a
   * sell; `None` when it passes them all.
   */
  function Refusal(s: StoreState, req: TradeRequest): Option<TradeOutcome>
    requires StoreValid(s)
  {
    if req.shares <= 0 then Some(InvalidOrder)
    else if req.athleteId !in s.athletes then Some(AthleteNotFound)
    else if req.userId !in s.users then Some(UserNotFound)
    else if req.kind == Buy then
      if s.users[req.userId].coins < OrderCostOf(s, req).total then Some(InsufficientCoins) else None
    else
      match HoldingOf(s.holdings, s.nextHoldingId, req.userId, req.athleteId)
      case None => Some(InsufficientShares)
      case Some(h) => if h.shares < req.shares then Some(InsufficientShares) else None
  }

  /** Coins and holding once a request has passed every check. */
  function Settled(s: StoreState, req: TradeRequest): StoreState
    requires StoreValid(s) && SharesPositive(s.holdings) && Refusal(s, req).None?
  {
    var price := s.athletes[req.athleteId].currentPrice;
    if req.kind == Buy then Bought(s, req, price, OrderCostOf(s, req))
    else Sold(s, req, HoldingOf(s.holdings, s.nextHoldingId, req.userId, req.athleteId).value, price, OrderCostOf(s, req))
  }

  /**
   * The trade handler on a store snapshot: a refused request changes
   * nothing; an accepted one settles coins and holding, then appends the
   * trade record and adds to the athlete's volume. The price is read once;
   * the fee is 1.5% of price × shares; a buy pays subtotal + fee, a sell
   * receives subtotal − fee, each rounded to cents when stored.
   */
  function TradeStep(s: StoreState, req: TradeRequest, now: int): (TradeOutcome, StoreState)
    requires StoreValid(s) && SharesPositive(s.holdings)
  {
    match Refusal(s, req)
    case Some(refusal) => (refusal, s)
    case None => Recorded(Settled(s, req), req, s.athletes[req.athleteId], OrderCostOf(s, req), now)
  }

  method ApplyBuy(store: MemStorage, req: TradeRequest, price: real, cost: OrderCost)
    requires store.Valid() && SharesPositive(store.portfolioHoldings)
    requires req.shares > 0 && req.userId in store.users
    modifies store`users, store`portfolioHoldings, store`currentPortfolioId
    ensures store.Valid() && SharesPositive(store.portfolioHoldings)
    ensures store.State() == Bought(old(store.State()), req, price, cost)
  {
    ghost var s0 := store.State();
    var user := store.users[req.userId];
    store.UpdateUserCoins(req.userId, Round2(user.coins - cost.total));
    ghost var s1 := store.State();
    assert s1 == s0.(users := s0.users[req.userId := user.(coins := Round2(user.coins - cost.total))]);
    var existingHolding := store.GetPortfolioHolding(req.userId, req.athleteId);
    assert existingHolding == HoldingOf(s0.holdings, s0.nextHoldingId, req.userId, req.athleteId);
    if existingHolding.Some? {
      var h := existingHolding.value;
      var newShares := h.shares + req.shares;
      var newAverageCost := AverageCostAfterBuy(h.averageCost, h.shares, cost.subtotal, newShares);
      store.UpdatePortfolioHolding(h.id, newShares, newAverageCost, MarkedValue(newShares, price));
      assert store.portfolioHoldings == s1.holdings[h.id := BoughtMore(h, req.shares, cost.subtotal, price)];
    } else {
      var created := store.CreatePortfolioHolding(InsertPortfolioHolding(
        req.userId, req.athleteId, req.shares, Round2(price), Round2(cost.subtotal)));
      assert created == FirstHolding(s1.nextHoldingId, req, price, cost.subtotal);
    }
  }

  method ApplySell(store: MemStorage, req: TradeRequest, h: PortfolioHolding, price: real, cost: OrderCost)
    requires store.Valid() && req.userId in store.users
    requires h.id in store.portfolioHoldings && store.portfolioHoldings[h.id] == h
    modifies store`users, store`portfolioHoldings
    ensures store.Valid()
    ensures SharesPositive(old(store.portfolioHoldings)) && h.shares >= req.shares ==>
      SharesPositive(store.portfolioHoldings)
    ensures store.State() == Sold(old(store.State()), req, h, price, cost)
  {
    var user := store.users[req.userId];
    store.UpdateUserCoins(req.userId, Round2(user.coins + cost.total));
    var newShares := h.shares - req.shares;
    if newShares == 0 {
      store.DeletePortfolioHolding(h.id);
    } else {
      store.UpdatePortfolioHolding(h.id, newShares, h.averageCost, MarkedValue(newShares, price));
    }
  }

  method ApplyRecord(store: MemStorage, req: TradeRequest, athlete: Athlete, cost: OrderCost, now: int)
    returns (outcome: TradeOutcome)
    requires store.Valid()
    requires req.athleteId in store.athletes && store.athletes[req.athleteId] == athlete
    modifies store`trades, store`currentTradeId, store`athletes
    ensures store.Valid()
    ensures (outcome, store.State()) == Recorded(old(store.State()), req, athlete, cost, now)
  {
    var trade := store.CreateTrade(InsertTrade(req.userId, req.athleteId, req.kind, req.shares,
      Round2(athlete.currentPrice), Round2(cost.subtotal), Round2(cost.fee)), now);
    var newVolume := VolumeOrZero(athlete.tradingVolume) + req.shares;
    store.UpdateAthleteTradingVolume(req.athleteId, newVolume);
    outcome := Executed(trade);
  }

  /**
   * `POST /api/trade`: reads the athlete and the user, prices the order,
   * checks coins (buy) or shares (sell), then updates coins, the holding,
   * the trade log and the athlete's volume, in that order.
   */
  method ExecuteTrade(store: MemStorage, req: TradeRequest, now: int) returns (outcome: TradeOutcome)
    requires store.Valid() && SharesPositive(store.portfolioHoldings)
    modifies store
    ensures store.Valid() && SharesPositive(store.portfolioHoldings)
    ensures (outcome, store.State()) == TradeStep(old(store.State()), req, now)
  {
    if req.shares <= 0 {
      return InvalidOrder;
    }
    var athleteOpt := store.GetAthlete(req.athleteId);
    if athleteOpt.None? {
      return AthleteNotFound;
    }
    var athlete := athleteOpt.value;
    var userOpt := store.GetUser(req.userId);
    if userOpt.None? {
      return UserNotFound;
    }
    var user := userOpt.value;

    var pricePerShare := athlete.currentPrice;
    var cost := CalculateTotalCost(req.shares, pricePerShare, req.kind);

    if req.kind == Buy {
      if user.coins < cost.total {
        return InsufficientCoins;
      }
      ApplyBuy(store, req, pricePerShare, cost);
    } else {
      var holding := store.GetPortfolioHolding(req.userId, req.athleteId);
      if holding.None? || holding.value.shares < req.shares {
        return InsufficientShares;
      }
      ApplySell(store, req, holding.value, pricePerShare, cost);
    }
    outcome := ApplyRecord(store, req, athlete, cost, now);
  }
}
