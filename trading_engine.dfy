/**
 * The trading engine's arithmetic: the 1.5% fee, the cost of an order by
 * direction, order validation, portfolio value and gain/loss, and the
 * volume-driven repricing formula.
 */
module TradingEngine {
  import opened Schema

  /** The trading fee: 1.5% of the amount traded. */
  const FeeRate: real := 0.015

  function CalculateTradingFee(amount: real): real
  {
    amount * FeeRate
  }

  /** The fee is linear in the amount, never negative, and never more than the amount. */
  lemma FeeIsProportional(a: real, b: real, k: real)
    ensures CalculateTradingFee(a + b) == CalculateTradingFee(a) + CalculateTradingFee(b)
    ensures CalculateTradingFee(k * a) == k * CalculateTradingFee(a)
    ensures a >= 0.0 ==> 0.0 <= CalculateTradingFee(a) <= a
    ensures CalculateTradingFee(200.0) == 3.0
  {
  }

  datatype OrderCost = OrderCost(subtotal: real, fee: real, total: real)

  /** Subtotal, fee and what the user pays (buy) or receives (sell). */
  function CalculateTotalCost(shares: int, pricePerShare: real, kind: TradeType): OrderCost
  {
    var subtotal := shares as real * pricePerShare;
    var fee := CalculateTradingFee(subtotal);
    var total := if kind == Buy then subtotal + fee else subtotal - fee;
    OrderCost(subtotal, fee, total)
  }

  /**
   * Only the total depends on the direction: a purchase costs the subtotal
   * plus the fee and a sale yields the subtotal less the fee, the two totals
   * lying exactly two fees apart; for a non-negative order a sale yields at
   * most the subtotal and a purchase costs at least the subtotal.
   */
  lemma TotalCostByDirection(shares: int, price: real)
    ensures var buy, sell := CalculateTotalCost(shares, price, Buy), CalculateTotalCost(shares, price, Sell);
      && buy.subtotal == sell.subtotal == shares as real * price
      && buy.fee == sell.fee == CalculateTradingFee(buy.subtotal)
      && buy.total == buy.subtotal + buy.fee && sell.total == sell.subtotal - sell.fee
      && buy.total - sell.total == 2.0 * buy.fee
      && (shares >= 0 && price >= 0.0 ==> sell.total <= buy.subtotal <= buy.total)
  {
    var subtotal := shares as real * price;
    if shares >= 0 && price >= 0.0 {
      assert subtotal >= 0.0 by {
        assert shares as real >= 0.0;
      }
      FeeIsProportional(subtotal, 0.0, 1.0);
    }
  }

  datatype TradeOrder = TradeOrder(userId: int, athleteId: int, kind: TradeType, shares: int, price: real)

  datatype OrderError = InvalidNumberOfShares | InsufficientFunds | InsufficientSharesToSell

  datatype Validation = Accepted | Rejected(error: OrderError)

  /**
   * A non-positive share count is rejected before anything else is looked
   * at; then a purchase needs a balance covering its total, a sale needs
   * enough shares held (the balance plays no part).
   */
  function ValidateTrade(order: TradeOrder, userBalance: real, userShares: int): (r: Validation)
    ensures r == Rejected(InvalidNumberOfShares) <==> order.shares <= 0
    ensures order.shares > 0 && order.kind == Buy ==>
      (r.Accepted? <==> userBalance >= CalculateTotalCost(order.shares, order.price, Buy).total)
    ensures order.shares > 0 && order.kind == Sell ==> (r.Accepted? <==> userShares >= order.shares)
    ensures r.Rejected? && r.error == InsufficientFunds ==> order.kind == Buy
    ensures r.Rejected? && r.error == InsufficientSharesToSell ==> order.kind == Sell
  {
    if order.shares <= 0 then Rejected(InvalidNumberOfShares)
    else
      var total := CalculateTotalCost(order.shares, order.price, order.kind).total;
      if order.kind == Buy then
        if userBalance < total then Rejected(InsufficientFunds) else Accepted
      else
        if userShares < order.shares then Rejected(InsufficientSharesToSell) else Accepted
  }

  /** A sale's validity does not depend on the balance, a purchase's not on the shares held. */
  lemma ValidationIgnoresIrrelevantInput(order: TradeOrder, b1: real, b2: real, s1: int, s2: int)
    ensures order.kind == Sell ==> ValidateTrade(order, b1, s1) == ValidateTrade(order, b2, s1)
    ensures order.kind == Buy ==> ValidateTrade(order, b1, s1) == ValidateTrade(order, b1, s2)
  {
  }

  /** One line of a portfolio as the engine sees it. */
  datatype Position = Position(shares: int, averageCost: real, currentPrice: real)

  function Worth(p: Position): real { p.shares as real * p.currentPrice }

  function Cost(p: Position): real { p.shares as real * p.averageCost }

  /** `holdings.reduce((total, h) => total + h.shares * h.currentPrice, 0)`, folded from the left. */
  function CalculatePortfolioValue(holdings: seq<Position>): real
  {
    if holdings == [] then 0.0
    else CalculatePortfolioValue(holdings[..|holdings| - 1]) + Worth(holdings[|holdings| - 1])
  }

  /** Σ shares × averageCost, in the same order. */
  function CostBasis(holdings: seq<Position>): real
  {
    if holdings == [] then 0.0
    else CostBasis(holdings[..|holdings| - 1]) + Cost(holdings[|holdings| - 1])
  }

  /** Σ shares × (currentPrice − averageCost): the gain holding by holding. */
  function GainSum(holdings: seq<Position>): real
  {
    if holdings == [] then 0.0
    else
      var last := holdings[|holdings| - 1];
      GainSum(holdings[..|holdings| - 1]) + last.shares as real * (last.currentPrice - last.averageCost)
  }

  /** Portfolio value is additive: the value of two lists is the sum of their values. */
  lemma {:induction false} PortfolioValueAppend(a: seq<Position>, b: seq<Position>)
    ensures CalculatePortfolioValue(a + b) == CalculatePortfolioValue(a) + CalculatePortfolioValue(b)
    decreases |b|
  {
    if b == [] {
      assert a + b == a;
    } else {
      var b' := b[..|b| - 1];
      assert (a + b)[..|a + b| - 1] == a + b';
      PortfolioValueAppend(a, b');
    }
  }

  /** With no short positions and no negative prices, the value is never negative. */
  lemma {:induction false} PortfolioValueNonNegative(holdings: seq<Position>)
    requires forall i :: 0 <= i < |holdings| ==> holdings[i].shares >= 0 && holdings[i].currentPrice >= 0.0
    ensures CalculatePortfolioValue(holdings) >= 0.0
    decreases |holdings|
  {
    if holdings != [] {
      var last := holdings[|holdings| - 1];
      PortfolioValueNonNegative(holdings[..|holdings| - 1]);
      assert Worth(last) >= 0.0 by {
        assert last.shares as real >= 0.0;
      }
    }
  }

  /** The total gain is value minus cost basis. */
  lemma {:induction false} GainIsValueMinusCost(holdings: seq<Position>)
    ensures GainSum(holdings) == CalculatePortfolioValue(holdings) - CostBasis(holdings)
    decreases |holdings|
  {
    if holdings != [] {
      var last := holdings[|holdings| - 1];
      GainIsValueMinusCost(holdings[..|holdings| - 1]);
      assert last.shares as real * (last.currentPrice - last.averageCost) == Worth(last) - Cost(last);
    }
  }

  /**
   * The `forEach` loop that accumulates cost and value, then the gain and the
   * gain in percent of the cost (0 when the cost is not positive).
   */
  method CalculatePortfolioGainLoss(holdings: seq<Position>) returns (totalGain: real, totalGainPercent: real)
    ensures totalGain == GainSum(holdings)
    ensures totalGain == CalculatePortfolioValue(holdings) - CostBasis(holdings)
    ensures CostBasis(holdings) <= 0.0 ==> totalGainPercent == 0.0
    ensures CostBasis(holdings) > 0.0 ==> totalGainPercent * CostBasis(holdings) == totalGain * 100.0
  {
    var totalCost := 0.0;
    var totalValue := 0.0;
    for i := 0 to |holdings|
      invariant totalCost == CostBasis(holdings[..i])
      invariant totalValue == CalculatePortfolioValue(holdings[..i])
    {
      assert holdings[..i + 1][..i] == holdings[..i];
      var cost := holdings[i].shares as real * holdings[i].averageCost;
      var value := holdings[i].shares as real * holdings[i].currentPrice;
      totalCost := totalCost + cost;
      totalValue := totalValue + value;
    }
    assert holdings[..|holdings|] == holdings;
    totalGain := totalValue - totalCost;
    GainIsValueMinusCost(holdings);
    totalGainPercent := if totalCost > 0.0 then (totalGain / totalCost) * 100.0 else 0.0;
  }

  function RealMax(a: real, b: real): real { if a >= b then a else b }

  /**
   * Volume- and sentiment-driven repricing. The natural logarithm is a
   * parameter (`ln`): the formula's shape, not the transcendental function,
   * is what is modelled. The ratio is 1 when the average volume is not
   * positive, and the result is floored at 1.
   */
  function UpdatePriceBasedOnVolume(currentPrice: real, tradingVolume: real, averageVolume: real,
                                    marketSentiment: real, ln: real -> real): (r: real)
    ensures r >= 1.0
    ensures r >= currentPrice * (1.0 + ln(if averageVolume > 0.0 then tradingVolume / averageVolume else 1.0) * 0.05
                                      + marketSentiment * 0.03)
    ensures r == 1.0 || r == currentPrice * (1.0 + ln(if averageVolume > 0.0 then tradingVolume / averageVolume else 1.0) * 0.05
                                                 + marketSentiment * 0.03)
  {
    var volumeRatio := if averageVolume > 0.0 then tradingVolume / averageVolume else 1.0;
    var volumeImpact := ln(volumeRatio) * 0.05;
    var sentimentImpact := marketSentiment * 0.03;
    var priceMultiplier := 1.0 + volumeImpact + sentimentImpact;
    RealMax(currentPrice * priceMultiplier, 1.0)
  }

  /** With a neutral volume ratio and no sentiment the price is unchanged, except for the floor of 1. */
  lemma NeutralMarketKeepsPrice(currentPrice: real, tradingVolume: real, averageVolume: real, ln: real -> real)
    requires ln(1.0) == 0.0
    requires averageVolume <= 0.0 || tradingVolume == averageVolume
    ensures UpdatePriceBasedOnVolume(currentPrice, tradingVolume, averageVolume, 0.0, ln) == RealMax(currentPrice, 1.0)
  {
    if averageVolume > 0.0 {
      assert tradingVolume / averageVolume == 1.0;
    }
  }
}
