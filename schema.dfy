/**
 * The four record kinds the store keeps (users, athletes, portfolio holdings,
 * trades) and the insert payloads their `create` operations take. Amounts are
 * `real` (see module Money); nullable columns are `Option`. Creation
 * timestamps are kept only for trades, the one place a query reads them.
 */
module Schema {
  import opened Collections

  datatype TradeType = Buy | Sell

  datatype User = User(
    id: int,
    username: string,
    password: string,
    coins: real,
    portfolioValue: real)

  datatype Athlete = Athlete(
    id: int,
    name: string,
    position: string,
    team: string,
    sport: string,
    currentPrice: real,
    previousPrice: Option<real>,
    imageUrl: Option<string>,
    stats: Option<string>,
    injuryStatus: Option<string>,
    hotness: Option<int>,
    tradingVolume: Option<int>)

  datatype PortfolioHolding = PortfolioHolding(
    id: int,
    userId: int,
    athleteId: int,
    shares: int,
    averageCost: real,
    totalValue: real)

  datatype Trade = Trade(
    id: int,
    userId: int,
    athleteId: int,
    kind: TradeType,
    shares: int,
    pricePerShare: real,
    totalAmount: real,
    fee: real,
    createdAt: int)

  datatype InsertAthlete = InsertAthlete(
    name: string,
    position: string,
    team: string,
    sport: string,
    currentPrice: real,
    previousPrice: Option<real>,
    imageUrl: Option<string>,
    stats: Option<string>,
    injuryStatus: Option<string>,
    hotness: Option<int>,
    tradingVolume: Option<int>)

  datatype InsertPortfolioHolding = InsertPortfolioHolding(
    userId: int,
    athleteId: int,
    shares: int,
    averageCost: real,
    totalValue: real)

  datatype InsertTrade = InsertTrade(
    userId: int,
    athleteId: int,
    kind: TradeType,
    shares: int,
    pricePerShare: real,
    totalAmount: real,
    fee: real)

  /** `volume || 0`: a missing trading volume reads as zero. */
  function VolumeOrZero(v: Option<int>): int
  {
    match v
    case Some(n) => n
    case None => 0
  }
}
