/**
 * The in-memory store: four maps keyed by auto-increment ids (users,
 * athletes, portfolio holdings, trades) and their four id counters, with the
 * create / update / delete operations that change them in place and the
 * queries that read them.
 */
module Storage {
  import opened Collections
  import opened Schema

  /** A snapshot of the whole store, for stating what an operation does to it. */
  datatype StoreState = StoreState(
    users: map<int, User>,
    athletes: map<int, Athlete>,
    holdings: map<int, PortfolioHolding>,
    trades: map<int, Trade>,
    nextUserId: int,
    nextAthleteId: int,
    nextHoldingId: int,
    nextTradeId: int)

  /**
   * Ids are handed out from 1 by the counters: every key lies below its
   * counter, and every record carries its own key as its id.
   */
  ghost predicate StoreValid(s: StoreState)
  {
    && s.nextUserId >= 1 && s.nextAthleteId >= 1 && s.nextHoldingId >= 1 && s.nextTradeId >= 1
    && (forall k :: k in s.users ==> 1 <= k < s.nextUserId && s.users[k].id == k)
    && (forall k :: k in s.athletes ==> 1 <= k < s.nextAthleteId && s.athletes[k].id == k)
    && (forall k :: k in s.holdings ==> 1 <= k < s.nextHoldingId && s.holdings[k].id == k)
    && (forall k :: k in s.trades ==> 1 <= k < s.nextTradeId && s.trades[k].id == k)
  }

  /** A new user starts with 10000.00 coins and a portfolio value of 0.00. */
  function NewUser(id: int, username: string, password: string): User
  {
    User(id, username, password, 10000.00, 0.00)
  }

  /** `s || null` on a string: the empty string is stored as null. */
  function NonEmptyOrNull(s: Option<string>): Option<string>
  {
    if s.Some? && s.value != "" then s else None
  }

  /** `n || null` on a number: zero is stored as null. */
  function NonZeroOrNull(n: Option<int>): Option<int>
  {
    if n.Some? && n.value != 0 then n else None
  }

  function NewAthlete(id: int, a: InsertAthlete): Athlete
  {
    Athlete(id, a.name, a.position, a.team,
      if a.sport == "" then "NBA" else a.sport,
      a.currentPrice, a.previousPrice,
      NonEmptyOrNull(a.imageUrl), NonEmptyOrNull(a.stats), NonEmptyOrNull(a.injuryStatus),
      NonZeroOrNull(a.hotness), NonZeroOrNull(a.tradingVolume))
  }

  function NewHolding(id: int, h: InsertPortfolioHolding): PortfolioHolding
  {
    PortfolioHolding(id, h.userId, h.athleteId, h.shares, h.averageCost, h.totalValue)
  }

  function NewTrade(id: int, t: InsertTrade, createdAt: int): Trade
  {
    Trade(id, t.userId, t.athleteId, t.kind, t.shares, t.pricePerShare, t.totalAmount, t.fee, createdAt)
  }

  /** All keys of a map whose keys lie below `n` are listed by `ValuesBelow(m, n)`. */
  lemma ValuesBelowAll<T>(m: map<int, T>, n: int)
    requires forall k :: k in m ==> 1 <= k < n
    ensures |ValuesBelow(m, n)| == |m|
    ensures forall k :: k in m ==> m[k] in ValuesBelow(m, n)
  {
    ValuesBelowCount(m, n);
    assert KeysBelow(m, n) == m.Keys;
    forall k | k in m ensures m[k] in ValuesBelow(m, n) {
      ValuesBelowMembership(m, n, m[k]);
    }
  }

  /** An element of `ValuesBelow(m, n)` is stored in `m` under some key. */
  lemma ValuesBelowStored<T>(m: map<int, T>, n: int, x: T)
    requires x in ValuesBelow(m, n)
    ensures exists k :: k in m && m[k] == x
  {
    ValuesBelowMembership(m, n, x);
  }

  /** `find` over the stored values in creation order returns the match with the lowest id. */
  lemma FoundFirst<T>(m: map<int, T>, next: int, p: T -> bool, idOf: T -> int)
    requires forall k :: k in m ==> 1 <= k < next && idOf(m[k]) == k
    requires Find(ValuesBelow(m, next), p).Some?
    ensures forall k :: k in m && k < idOf(Find(ValuesBelow(m, next), p).value) ==> !p(m[k])
  {
    var all := ValuesBelow(m, next);
    var found := Find(all, p).value;
    var i :| 0 <= i < |all| && all[i] == found && forall j :: 0 <= j < i ==> !p(all[j]);
    ValuesBelowIncreasing(m, next, idOf);
    forall k | k in m && k < idOf(found) ensures !p(m[k]) {
      ValuesBelowMembership(m, next, m[k]);
      var j :| 0 <= j < |all| && all[j] == m[k];
      assert idOf(all[j]) < idOf(all[i]);
    }
  }

  /** `getUserByUsername`: the first user, in creation order, with that name. */
  function UserWithName(users: map<int, User>, next: int, username: string): (r: Option<User>)
    requires forall k :: k in users ==> 1 <= k < next && users[k].id == k
    ensures r.Some? ==> r.value.username == username && r.value.id in users && users[r.value.id] == r.value
    ensures r.Some? ==> forall k :: k in users && k < r.value.id ==> users[k].username != username
    ensures r.None? <==> forall k :: k in users ==> users[k].username != username
  {
    var p := (u: User) => u.username == username;
    var r := Find(ValuesBelow(users, next), p);
    ValuesBelowAll(users, next);
    if r.Some? then ValuesBelowStored(users, next, r.value); FoundFirst(users, next, p, (u: User) => u.id); r else r
  }

  predicate IsPair(h: PortfolioHolding, userId: int, athleteId: int)
  {
    h.userId == userId && h.athleteId == athleteId
  }

  /** `getPortfolioHolding`: a stored holding of that user in that athlete, if there is one. */
  function HoldingOf(holdings: map<int, PortfolioHolding>, next: int, userId: int, athleteId: int)
    : (r: Option<PortfolioHolding>)
    requires forall k :: k in holdings ==> 1 <= k < next && holdings[k].id == k
    ensures r.Some? ==> IsPair(r.value, userId, athleteId) && r.value.id in holdings && holdings[r.value.id] == r.value
    ensures r.None? <==> forall k :: k in holdings ==> !IsPair(holdings[k], userId, athleteId)
  {
    var r := Find(ValuesBelow(holdings, next), (h: PortfolioHolding) => IsPair(h, userId, athleteId));
    ValuesBelowAll(holdings, next);
    if r.Some? then ValuesBelowStored(holdings, next, r.value); r else r
  }

  /** The keys whose stored value satisfies `p`. */
  function KeysWhere<T>(m: map<int, T>, p: T -> bool): set<int>
  {
    set k | k in m && p(m[k])
  }

  lemma FilterKeysCount<T>(m: map<int, T>, next: int, p: T -> bool)
    requires forall k :: k in m ==> 1 <= k < next
    ensures |Filter(ValuesBelow(m, next), p)| == |KeysWhere(m, p)|
  {
    FilterValuesBelowCount(m, next, p);
    assert (set k | k in m && 1 <= k < next && p(m[k])) == KeysWhere(m, p);
  }

  /**
   * `Array.from(m.values()).filter(p)`: every stored value satisfying `p`
   * once, in increasing id order, and nothing else.
   */
  function StoredWhere<T>(m: map<int, T>, next: int, p: T -> bool, idOf: T -> int): (r: seq<T>)
    requires forall k :: k in m ==> 1 <= k < next && idOf(m[k]) == k
    ensures forall i :: 0 <= i < |r| ==> p(r[i]) && idOf(r[i]) in m && m[idOf(r[i])] == r[i]
    ensures forall k :: k in m && p(m[k]) ==> m[k] in r
    ensures IncreasingBy(r, idOf)
    ensures |r| == |KeysWhere(m, p)|
  {
    var all := ValuesBelow(m, next);
    var r := Filter(all, p);
    ValuesBelowAll(m, next);
    assert forall i :: 0 <= i < |r| ==> idOf(r[i]) in m && m[idOf(r[i])] == r[i] by {
      forall i | 0 <= i < |r| ensures idOf(r[i]) in m && m[idOf(r[i])] == r[i] {
        ValuesBelowStored(m, next, r[i]);
      }
    }
    assert forall k :: k in m && p(m[k]) ==> m[k] in r by {
      forall k | k in m && p(m[k]) ensures m[k] in r {
        var i :| 0 <= i < |all| && all[i] == m[k];
      }
    }
    ValuesBelowIncreasing(m, next, idOf);
    FilterIncreasing(all, p, idOf);
    FilterKeysCount(m, next, p);
    r
  }

  /** How many trades the user has made. */
  function TradeCount(trades: map<int, Trade>, userId: int): int
  {
    |set k | k in trades && trades[k].userId == userId|
  }

  /** The user's trades, in creation order: every one of them once, and nothing else. */
  function TradesOf(trades: map<int, Trade>, next: int, userId: int): (r: seq<Trade>)
    requires forall k :: k in trades ==> 1 <= k < next && trades[k].id == k
    ensures forall i :: 0 <= i < |r| ==> r[i].userId == userId && r[i].id in trades && trades[r[i].id] == r[i]
    ensures forall k :: k in trades && trades[k].userId == userId ==> trades[k] in r
    ensures forall i, j :: 0 <= i < j < |r| ==> r[i].id < r[j].id
    ensures |r| == TradeCount(trades, userId)
  {
    var p := (t: Trade) => t.userId == userId;
    var r := StoredWhere(trades, next, p, (t: Trade) => t.id);
    assert KeysWhere(trades, p) == set k | k in trades && trades[k].userId == userId;
    r
  }

  function TradeTime(t: Trade): real { t.createdAt as real }

  /** A cut of the user's trades lists trades of the user, none of them twice. */
  lemma TopTradesStored(mine: seq<Trade>, r: seq<Trade>)
    requires multiset(r) <= multiset(mine)
    requires forall i, j :: 0 <= i < j < |mine| ==> mine[i].id < mine[j].id
    ensures forall i :: 0 <= i < |r| ==> r[i] in mine
    ensures forall i, j :: 0 <= i < j < |r| ==> r[i].id != r[j].id
  {
    forall i | 0 <= i < |r| ensures r[i] in mine {
      assert r[i] in multiset(mine);
    }
    SubMultisetNoDuplicates(mine, r);
    forall i, j | 0 <= i < j < |r| ensures r[i].id != r[j].id {
      var a :| 0 <= a < |mine| && mine[a] == r[i];
      var b :| 0 <= b < |mine| && mine[b] == r[j];
      assert a != b;
    }
  }

  lemma OmittedTradesOlder(trades: map<int, Trade>, userId: int, mine: seq<Trade>, r: seq<Trade>)
    requires forall k :: k in trades && trades[k].userId == userId ==> trades[k] in mine
    requires forall i, j :: 0 <= i < |mine| && 0 <= j < |r| && mine[i] !in r ==> TradeTime(mine[i]) <= TradeTime(r[j])
    ensures forall k, j :: k in trades && trades[k].userId == userId && trades[k] !in r && 0 <= j < |r| ==>
      trades[k].createdAt <= r[j].createdAt
  {
    forall k, j | k in trades && trades[k].userId == userId && trades[k] !in r && 0 <= j < |r|
      ensures trades[k].createdAt <= r[j].createdAt
    {
      var i :| 0 <= i < |mine| && mine[i] == trades[k];
      assert TradeTime(mine[i]) <= TradeTime(r[j]);
    }
  }

  /** The newest of the user's trades: how many, in which order, and where they are stored. */
  lemma NewestTradesListed(trades: map<int, Trade>, next: int, userId: int, limit: int)
    requires forall k :: k in trades ==> 1 <= k < next && trades[k].id == k
    ensures var r := TopBy(TradesOf(trades, next, userId), TradeTime, limit);
      && (limit >= 0 ==> |r| == Min(limit, TradeCount(trades, userId)))
      && (forall i :: 0 <= i < |r| ==> r[i].userId == userId && r[i].id in trades && trades[r[i].id] == r[i])
      && (forall i, j :: 0 <= i < j < |r| ==> r[i].id != r[j].id)
  {
    var mine := TradesOf(trades, next, userId);
    TopTradesStored(mine, TopBy(mine, TradeTime, limit));
  }

  /** None of the user's trades left out is newer than one kept. */
  lemma NewestTradesKept(trades: map<int, Trade>, next: int, userId: int, limit: int)
    requires forall k :: k in trades ==> 1 <= k < next && trades[k].id == k
    ensures var r := TopBy(TradesOf(trades, next, userId), TradeTime, limit);
      forall k, j :: k in trades && trades[k].userId == userId && trades[k] !in r && 0 <= j < |r| ==>
        trades[k].createdAt <= r[j].createdAt
  {
    var mine := TradesOf(trades, next, userId);
    OmittedTradesOlder(trades, userId, mine, TopBy(mine, TradeTime, limit));
  }

  /**
   * Users with equal stored values appear in `r` in creation order, and a
   * user left out who ties with a listed one was created after it.
   */
  ghost predicate ValueTiesByCreation(users: map<int, User>, r: seq<User>)
  {
    && (forall i, j :: 0 <= i < j < |r| && r[i].portfolioValue == r[j].portfolioValue ==> r[i].id < r[j].id)
    && (forall k, j :: k in users && users[k] !in r && 0 <= j < |r| && users[k].portfolioValue == r[j].portfolioValue ==>
          r[j].id < k)
  }

  /** No athlete left out of `r` has traded more than one listed (a missing volume counts as 0). */
  ghost predicate LeftOutTradedNoMore(athletes: map<int, Athlete>, r: seq<Athlete>)
  {
    forall k, j :: k in athletes && athletes[k] !in r && 0 <= j < |r| ==>
      VolumeOrZero(athletes[k].tradingVolume) <= VolumeOrZero(r[j].tradingVolume)
  }

  /** The same for athletes with equal trading volumes (a missing volume counts as 0). */
  ghost predicate VolumeTiesByCreation(athletes: map<int, Athlete>, r: seq<Athlete>)
  {
    && (forall i, j :: 0 <= i < j < |r| && VolumeOrZero(r[i].tradingVolume) == VolumeOrZero(r[j].tradingVolume) ==>
          r[i].id < r[j].id)
    && (forall k, j :: k in athletes && athletes[k] !in r && 0 <= j < |r| && VolumeOrZero(athletes[k].tradingVolume) == VolumeOrZero(r[j].tradingVolume) ==>
          r[j].id < k)
  }

  /** The same for trades stamped at the same time. */
  ghost predicate TimeTiesByCreation(trades: map<int, Trade>, r: seq<Trade>)
  {
    && (forall i, j :: 0 <= i < j < |r| && r[i].createdAt == r[j].createdAt ==> r[i].id < r[j].id)
    && (forall k, j :: k in trades && trades[k] !in r && 0 <= j < |r| && trades[k].createdAt == r[j].createdAt ==>
          r[j].id < k)
  }

  /** The same for one user's trades stamped at the same time. */
  ghost predicate UserTimeTiesByCreation(trades: map<int, Trade>, userId: int, r: seq<Trade>)
  {
    && (forall i, j :: 0 <= i < j < |r| && r[i].createdAt == r[j].createdAt ==> r[i].id < r[j].id)
    && (forall k, j :: k in trades && trades[k].userId == userId && trades[k] !in r && 0 <= j < |r| && trades[k].createdAt == r[j].createdAt ==>
          r[j].id < k)
  }

  /**
   * Ties in a ranking keep creation order: records with equal keys are
   * listed by increasing id, and a record of `s` left out with the same key
   * as a listed one has a larger id than it.
   */
  lemma RankedTies<T>(m: map<int, T>, s: seq<T>, key: T -> real, n: int, idOf: T -> int)
    requires IncreasingBy(s, idOf)
    requires forall k :: k in m ==> idOf(m[k]) == k
    ensures var r := TopBy(s, key, n);
      && (forall i, j :: 0 <= i < j < |r| && key(r[i]) == key(r[j]) ==> idOf(r[i]) < idOf(r[j]))
      && (forall k, j :: k in m && m[k] in s && m[k] !in r && 0 <= j < |r| && key(m[k]) == key(r[j]) ==>
            idOf(r[j]) < k)
  {
    TopByStable(s, key, n, idOf);
    var r := TopBy(s, key, n);
    forall k, j | k in m && m[k] in s && m[k] !in r && 0 <= j < |r| && key(m[k]) == key(r[j])
      ensures idOf(r[j]) < k
    {
      var i :| 0 <= i < |s| && s[i] == m[k];
    }
  }

  /** The user's trades stamped at the same time are listed, and cut, in creation order. */
  lemma NewestTradesTies(trades: map<int, Trade>, next: int, userId: int, limit: int)
    requires forall k :: k in trades ==> 1 <= k < next && trades[k].id == k
    ensures UserTimeTiesByCreation(trades, userId, TopBy(TradesOf(trades, next, userId), TradeTime, limit))
  {
    var mine := TradesOf(trades, next, userId);
    assert IncreasingBy(mine, (t: Trade) => t.id);
    RankedTies(trades, mine, TradeTime, limit, (t: Trade) => t.id);
  }

  /** `getUserTrades` on the trade map: the user's trades, newest first, cut to `limit`. */
  function NewestTradesOf(trades: map<int, Trade>, next: int, userId: int, limit: int): (r: seq<Trade>)
    requires forall k :: k in trades ==> 1 <= k < next && trades[k].id == k
    ensures limit >= 0 ==> |r| == Min(limit, TradeCount(trades, userId))
    ensures SortedDesc(r, TradeTime)
    ensures forall i :: 0 <= i < |r| ==> r[i].userId == userId && r[i].id in trades && trades[r[i].id] == r[i]
    ensures forall i, j :: 0 <= i < j < |r| ==> r[i].id != r[j].id
    ensures forall k, j :: k in trades && trades[k].userId == userId && trades[k] !in r && 0 <= j < |r| ==>
      trades[k].createdAt <= r[j].createdAt
    ensures UserTimeTiesByCreation(trades, userId, r)
  {
    NewestTradesListed(trades, next, userId, limit);
    NewestTradesKept(trades, next, userId, limit);
    NewestTradesTies(trades, next, userId, limit);
    TopBy(TradesOf(trades, next, userId), TradeTime, limit)
  }

  function VolumeKey(a: Athlete): real { VolumeOrZero(a.tradingVolume) as real }

  function PortfolioValueKey(u: User): real { u.portfolioValue }

  /**
   * What a sort and cut of the map's values keeps is still stored, each
   * record under its own id, and no record is listed twice.
   */
  lemma ListedStored<T>(m: map<int, T>, next: int, r: seq<T>, idOf: T -> int)
    requires forall k :: k in m ==> 1 <= k < next && idOf(m[k]) == k
    requires multiset(r) <= multiset(ValuesBelow(m, next))
    ensures forall i :: 0 <= i < |r| ==> idOf(r[i]) in m && m[idOf(r[i])] == r[i]
    ensures forall i, j :: 0 <= i < j < |r| ==> idOf(r[i]) != idOf(r[j])
  {
    forall i | 0 <= i < |r| ensures idOf(r[i]) in m && m[idOf(r[i])] == r[i] {
      assert r[i] in multiset(ValuesBelow(m, next));
      ValuesBelowStored(m, next, r[i]);
    }
    ValuesBelowIncreasing(m, next, idOf);
    SubMultisetNoDuplicates(ValuesBelow(m, next), r);
  }

  /** Trades stamped at the same time are listed, and cut, in creation order. */
  lemma RecentTradesTies(trades: map<int, Trade>, next: int, limit: int)
    requires forall k :: k in trades ==> 1 <= k < next && trades[k].id == k
    ensures TimeTiesByCreation(trades, TopBy(ValuesBelow(trades, next), TradeTime, limit))
  {
    var all := ValuesBelow(trades, next);
    assert forall k :: k in trades ==> trades[k] in all by {
      ValuesBelowAll(trades, next);
    }
    ValuesBelowIncreasing(trades, next, (t: Trade) => t.id);
    RankedTies(trades, all, TradeTime, limit, (t: Trade) => t.id);
  }

  lemma RecentOmittedOlder(trades: map<int, Trade>, all: seq<Trade>, r: seq<Trade>)
    requires forall k :: k in trades ==> trades[k] in all
    requires forall i, j :: 0 <= i < |all| && 0 <= j < |r| && all[i] !in r ==> TradeTime(all[i]) <= TradeTime(r[j])
    ensures forall k, j :: k in trades && trades[k] !in r && 0 <= j < |r| ==> trades[k].createdAt <= r[j].createdAt
  {
    forall k, j | k in trades && trades[k] !in r && 0 <= j < |r|
      ensures trades[k].createdAt <= r[j].createdAt
    {
      var i :| 0 <= i < |all| && all[i] == trades[k];
      assert TradeTime(all[i]) <= TradeTime(r[j]);
    }
  }

  lemma UsersOmittedRankLower(users: map<int, User>, all: seq<User>, r: seq<User>)
    requires forall k :: k in users ==> users[k] in all
    requires forall i, j :: 0 <= i < |all| && 0 <= j < |r| && all[i] !in r ==> PortfolioValueKey(all[i]) <= PortfolioValueKey(r[j])
    ensures forall k, j :: k in users && users[k] !in r && 0 <= j < |r| ==> users[k].portfolioValue <= r[j].portfolioValue
  {
    forall k, j | k in users && users[k] !in r && 0 <= j < |r|
      ensures users[k].portfolioValue <= r[j].portfolioValue
    {
      var i :| 0 <= i < |all| && all[i] == users[k];
      assert PortfolioValueKey(all[i]) <= PortfolioValueKey(r[j]);
    }
  }

  /** The top traders are stored users, none of them twice. */
  lemma TopTradersListed(users: map<int, User>, next: int, limit: int, r: seq<User>)
    requires forall k :: k in users ==> 1 <= k < next && users[k].id == k
    requires r == TopBy(ValuesBelow(users, next), PortfolioValueKey, limit)
    ensures limit >= 0 ==> |r| == Min(limit, |users|)
    ensures forall i :: 0 <= i < |r| ==> r[i].id in users && users[r[i].id] == r[i]
    ensures forall i, j :: 0 <= i < j < |r| ==> r[i].id != r[j].id
  {
    assert limit >= 0 ==> |r| == Min(limit, |users|) by {
      ValuesBelowAll(users, next);
    }
    ListedStored(users, next, r, (u: User) => u.id);
  }

  /** No user left out of the top traders has a larger stored value than one kept. */
  lemma TopTradersOutrank(users: map<int, User>, next: int, limit: int)
    requires forall k :: k in users ==> 1 <= k < next && users[k].id == k
    ensures var r := TopBy(ValuesBelow(users, next), PortfolioValueKey, limit);
      forall k, j :: k in users && users[k] !in r && 0 <= j < |r| ==>
        users[k].portfolioValue <= r[j].portfolioValue
  {
    var all := ValuesBelow(users, next);
    assert forall k :: k in users ==> users[k] in all by {
      ValuesBelowAll(users, next);
    }
    UsersOmittedRankLower(users, all, TopBy(all, PortfolioValueKey, limit));
  }

  /** Users with equal stored values are ranked, and cut, in creation order. */
  lemma TopTradersTies(users: map<int, User>, next: int, limit: int)
    requires forall k :: k in users ==> 1 <= k < next && users[k].id == k
    ensures ValueTiesByCreation(users, TopBy(ValuesBelow(users, next), PortfolioValueKey, limit))
  {
    var all := ValuesBelow(users, next);
    assert forall k :: k in users ==> users[k] in all by {
      ValuesBelowAll(users, next);
    }
    ValuesBelowIncreasing(users, next, (u: User) => u.id);
    RankedTies(users, all, PortfolioValueKey, limit, (u: User) => u.id);
  }

  /** `getTopTraders` on the user map: ranked by stored portfolio value, largest first, cut to `limit`. */
  function TopTradersOf(users: map<int, User>, next: int, limit: int): (r: seq<User>)
    requires forall k :: k in users ==> 1 <= k < next && users[k].id == k
    ensures limit >= 0 ==> |r| == Min(limit, |users|)
    ensures SortedDesc(r, PortfolioValueKey)
    ensures forall i :: 0 <= i < |r| ==> r[i].id in users && users[r[i].id] == r[i]
    ensures forall i, j :: 0 <= i < j < |r| ==> r[i].id != r[j].id
    ensures forall k, j :: k in users && users[k] !in r && 0 <= j < |r| ==>
      users[k].portfolioValue <= r[j].portfolioValue
    ensures ValueTiesByCreation(users, r)
  {
    var r := TopBy(ValuesBelow(users, next), PortfolioValueKey, limit);
    TopTradersListed(users, next, limit, r);
    TopTradersOutrank(users, next, limit);
    TopTradersTies(users, next, limit);
    r
  }

  lemma AthletesOmittedRankLower(athletes: map<int, Athlete>, all: seq<Athlete>, r: seq<Athlete>)
    requires forall k :: k in athletes ==> athletes[k] in all
    requires forall i, j :: 0 <= i < |all| && 0 <= j < |r| && all[i] !in r ==> VolumeKey(all[i]) <= VolumeKey(r[j])
    ensures forall k, j :: k in athletes && athletes[k] !in r && 0 <= j < |r| ==>
      VolumeOrZero(athletes[k].tradingVolume) <= VolumeOrZero(r[j].tradingVolume)
  {
    forall k, j | k in athletes && athletes[k] !in r && 0 <= j < |r|
      ensures VolumeOrZero(athletes[k].tradingVolume) <= VolumeOrZero(r[j].tradingVolume)
    {
      var i :| 0 <= i < |all| && all[i] == athletes[k];
      assert VolumeKey(all[i]) <= VolumeKey(r[j]);
    }
  }

  /** The ten busiest athletes are stored athletes, none of them twice. */
  lemma TrendingListed(athletes: map<int, Athlete>, next: int)
    requires forall k :: k in athletes ==> 1 <= k < next && athletes[k].id == k
    ensures var r := TopBy(ValuesBelow(athletes, next), VolumeKey, 10);
      && |r| == Min(10, |athletes|)
      && (forall i :: 0 <= i < |r| ==> r[i].id in athletes && athletes[r[i].id] == r[i])
      && (forall i, j :: 0 <= i < j < |r| ==> r[i].id != r[j].id)
  {
    var r := TopBy(ValuesBelow(athletes, next), VolumeKey, 10);
    assert |r| == Min(10, |athletes|) by {
      ValuesBelowAll(athletes, next);
    }
    ListedStored(athletes, next, r, (a: Athlete) => a.id);
  }

  /** No athlete left out of the ten busiest has traded more than one kept. */
  lemma TrendingOutrank(athletes: map<int, Athlete>, next: int)
    requires forall k :: k in athletes ==> 1 <= k < next && athletes[k].id == k
    ensures LeftOutTradedNoMore(athletes, TopBy(ValuesBelow(athletes, next), VolumeKey, 10))
  {
    var all := ValuesBelow(athletes, next);
    assert forall k :: k in athletes ==> athletes[k] in all by {
      ValuesBelowAll(athletes, next);
    }
    AthletesOmittedRankLower(athletes, all, TopBy(all, VolumeKey, 10));
  }

  /** Athletes with equal volumes are ranked, and cut, in creation order. */
  lemma TrendingTies(athletes: map<int, Athlete>, next: int)
    requires forall k :: k in athletes ==> 1 <= k < next && athletes[k].id == k
    ensures VolumeTiesByCreation(athletes, TopBy(ValuesBelow(athletes, next), VolumeKey, 10))
  {
    var all := ValuesBelow(athletes, next);
    assert forall k :: k in athletes ==> athletes[k] in all by {
      ValuesBelowAll(athletes, next);
    }
    ValuesBelowIncreasing(athletes, next, (a: Athlete) => a.id);
    RankedTies(athletes, all, VolumeKey, 10, (a: Athlete) => a.id);
  }

  /** `getTrendingAthletes` on the athlete map: ranked by trading volume (missing as 0), largest first, cut to ten. */
  function TrendingOf(athletes: map<int, Athlete>, next: int): (r: seq<Athlete>)
    requires forall k :: k in athletes ==> 1 <= k < next && athletes[k].id == k
    ensures |r| == Min(10, |athletes|)
    ensures SortedDesc(r, VolumeKey)
    ensures forall i :: 0 <= i < |r| ==> r[i].id in athletes && athletes[r[i].id] == r[i]
    ensures forall i, j :: 0 <= i < j < |r| ==> r[i].id != r[j].id
    ensures LeftOutTradedNoMore(athletes, r)
    ensures VolumeTiesByCreation(athletes, r)
  {
    TrendingListed(athletes, next);
    TrendingOutrank(athletes, next);
    TrendingTies(athletes, next);
    TopBy(ValuesBelow(athletes, next), VolumeKey, 10)
  }

  class MemStorage {
    var users: map<int, User>
    var athletes: map<int, Athlete>
    var portfolioHoldings: map<int, PortfolioHolding>
    var trades: map<int, Trade>
    var currentUserId: int
    var currentAthleteId: int
    var currentPortfolioId: int
    var currentTradeId: int

    function State(): StoreState
      reads this
    {
      StoreState(users, athletes, portfolioHoldings, trades,
        currentUserId, currentAthleteId, currentPortfolioId, currentTradeId)
    }

    ghost predicate Valid()
      reads this
    {
      StoreValid(State())
    }

    /** An empty store whose counters all start at 1 (the sample catalogue is not part of this model). */
    constructor ()
      ensures Valid()
      ensures State() == StoreState(map[], map[], map[], map[], 1, 1, 1, 1)
    {
      users, athletes, portfolioHoldings, trades := map[], map[], map[], map[];
      currentUserId, currentAthleteId, currentPortfolioId, currentTradeId := 1, 1, 1, 1;
    }

    // User operations

    function GetUser(id: int): (r: Option<User>)
      reads this
      ensures r.Some? <==> id in users
      ensures r.Some? ==> r.value == users[id]
    {
      if id in users then Some(users[id]) else None
    }

    function GetUserByUsername(username: string): (r: Option<User>)
      reads this
      requires Valid()
      ensures r.Some? ==> r.value.username == username && r.value.id in users && users[r.value.id] == r.value
      ensures r.Some? ==> forall k :: k in users && k < r.value.id ==> users[k].username != username
      ensures r.None? <==> forall k :: k in users ==> users[k].username != username
    {
      UserWithName(users, currentUserId, username)
    }

    /** Takes the next user id, stores a user with the opening balance, and touches no other user. */
    method CreateUser(username: string, password: string) returns (user: User)
      requires Valid()
      modifies this`users, this`currentUserId
      ensures Valid()
      ensures user == NewUser(old(currentUserId), username, password)
      ensures user.coins == 10000.00 && user.portfolioValue == 0.00
      ensures forall k :: k in old(users) ==> k < user.id
      ensures users == old(users)[user.id := user]
      ensures currentUserId == old(currentUserId) + 1
    {
      var id := currentUserId;
      currentUserId := currentUserId + 1;
      user := NewUser(id, username, password);
      users := users[id := user];
    }

    /** Sets the balance of user `id`; an unknown id changes nothing. */
    method UpdateUserCoins(id: int, coins: real)
      requires Valid()
      modifies this`users
      ensures Valid()
      ensures id in old(users) ==> users == old(users)[id := old(users)[id].(coins := coins)]
      ensures id !in old(users) ==> users == old(users)
    {
      if id in users {
        users := users[id := users[id].(coins := coins)];
      }
    }

    /** Sets the cached portfolio value of user `id`; an unknown id changes nothing. */
    method UpdateUserPortfolioValue(id: int, portfolioValue: real)
      requires Valid()
      modifies this`users
      ensures Valid()
      ensures id in old(users) ==> users == old(users)[id := old(users)[id].(portfolioValue := portfolioValue)]
      ensures id !in old(users) ==> users == old(users)
    {
      if id in users {
        users := users[id := users[id].(portfolioValue := portfolioValue)];
      }
    }

    // Athlete operations

    /** The athletes in creation order. */
    function GetAllAthletes(): (r: seq<Athlete>)
      reads this
      requires Valid()
      ensures |r| == |athletes|
      ensures forall k :: k in athletes ==> athletes[k] in r
      ensures forall i :: 0 <= i < |r| ==> r[i].id in athletes && athletes[r[i].id] == r[i]
      ensures forall i, j :: 0 <= i < j < |r| ==> r[i].id < r[j].id
    {
      var r := ValuesBelow(athletes, currentAthleteId);
      ValuesBelowAll(athletes, currentAthleteId);
      ValuesBelowIncreasing(athletes, currentAthleteId, (a: Athlete) => a.id);
      forall i | 0 <= i < |r| ensures r[i].id in athletes && athletes[r[i].id] == r[i] {
        ValuesBelowStored(athletes, currentAthleteId, r[i]);
      }
      r
    }

    function GetAthlete(id: int): (r: Option<Athlete>)
      reads this
      ensures r.Some? <==> id in athletes
      ensures r.Some? ==> r.value == athletes[id]
    {
      if id in athletes then Some(athletes[id]) else None
    }

    /** Takes the next athlete id and stores the athlete, with `||` defaults applied. */
    method CreateAthlete(insertAthlete: InsertAthlete) returns (athlete: Athlete)
      requires Valid()
      modifies this`athletes, this`currentAthleteId
      ensures Valid()
      ensures athlete == NewAthlete(old(currentAthleteId), insertAthlete)
      ensures forall k :: k in old(athletes) ==> k < athlete.id
      ensures athletes == old(athletes)[athlete.id := athlete]
      ensures currentAthleteId == old(currentAthleteId) + 1
    {
      var id := currentAthleteId;
      currentAthleteId := currentAthleteId + 1;
      athlete := NewAthlete(id, insertAthlete);
      athletes := athletes[id := athlete];
    }

    /** The old current price becomes the previous price; an unknown id changes nothing. */
    method UpdateAthletePrice(id: int, price: real)
      requires Valid()
      modifies this`athletes
      ensures Valid()
      ensures id in old(athletes) ==>
        athletes == old(athletes)[id := old(athletes)[id].(previousPrice := Some(old(athletes)[id].currentPrice),
                                                           currentPrice := price)]
      ensures id !in old(athletes) ==> athletes == old(athletes)
    {
      if id in athletes {
        var athlete := athletes[id];
        athletes := athletes[id := athlete.(previousPrice := Some(athlete.currentPrice), currentPrice := price)];
      }
    }

    method UpdateAthleteHotness(id: int, hotness: int)
      requires Valid()
      modifies this`athletes
      ensures Valid()
      ensures id in old(athletes) ==> athletes == old(athletes)[id := old(athletes)[id].(hotness := Some(hotness))]
      ensures id !in old(athletes) ==> athletes == old(athletes)
    {
      if id in athletes {
        athletes := athletes[id := athletes[id].(hotness := Some(hotness))];
      }
    }

    method UpdateAthleteTradingVolume(id: int, volume: int)
      requires Valid()
      modifies this`athletes
      ensures Valid()
      ensures id in old(athletes) ==> athletes == old(athletes)[id := old(athletes)[id].(tradingVolume := Some(volume))]
      ensures id !in old(athletes) ==> athletes == old(athletes)
    {
      if id in athletes {
        athletes := athletes[id := athletes[id].(tradingVolume := Some(volume))];
      }
    }

    /** The ten athletes with the largest trading volume (a missing volume counts as 0), largest first. */
    function GetTrendingAthletes(): (r: seq<Athlete>)
      reads this
      requires Valid()
      ensures |r| == Min(10, |athletes|)
      ensures SortedDesc(r, VolumeKey)
      ensures forall i :: 0 <= i < |r| ==> r[i].id in athletes && athletes[r[i].id] == r[i]
      ensures forall i, j :: 0 <= i < j < |r| ==> r[i].id != r[j].id
      ensures LeftOutTradedNoMore(athletes, r)
      ensures VolumeTiesByCreation(athletes, r)
    {
      TrendingOf(athletes, currentAthleteId)
    }

    // Portfolio operations

    /** The user's holdings, in creation order, each once. */
    function GetUserPortfolio(userId: int): (r: seq<PortfolioHolding>)
      reads this
      requires Valid()
      ensures forall i :: 0 <= i < |r| ==>
        r[i].userId == userId && r[i].id in portfolioHoldings && portfolioHoldings[r[i].id] == r[i]
      ensures forall k :: k in portfolioHoldings && portfolioHoldings[k].userId == userId ==> portfolioHoldings[k] in r
      ensures forall i, j :: 0 <= i < j < |r| ==> r[i].id < r[j].id
      ensures |r| == |set k | k in portfolioHoldings && portfolioHoldings[k].userId == userId|
    {
      var p := (h: PortfolioHolding) => h.userId == userId;
      var r := StoredWhere(portfolioHoldings, currentPortfolioId, p, (h: PortfolioHolding) => h.id);
      assert KeysWhere(portfolioHoldings, p) == set k | k in portfolioHoldings && portfolioHoldings[k].userId == userId;
      r
    }

    function GetPortfolioHolding(userId: int, athleteId: int): (r: Option<PortfolioHolding>)
      reads this
      requires Valid()
      ensures r.Some? ==>
        IsPair(r.value, userId, athleteId) && r.value.id in portfolioHoldings && portfolioHoldings[r.value.id] == r.value
      ensures r.None? <==> forall k :: k in portfolioHoldings ==> !IsPair(portfolioHoldings[k], userId, athleteId)
    {
      HoldingOf(portfolioHoldings, currentPortfolioId, userId, athleteId)
    }

    /** Takes the next holding id and stores the holding; no other holding changes. */
    method CreatePortfolioHolding(insertHolding: InsertPortfolioHolding) returns (holding: PortfolioHolding)
      requires Valid()
      modifies this`portfolioHoldings, this`currentPortfolioId
      ensures Valid()
      ensures holding == NewHolding(old(currentPortfolioId), insertHolding)
      ensures forall k :: k in old(portfolioHoldings) ==> k < holding.id
      ensures portfolioHoldings == old(portfolioHoldings)[holding.id := holding]
      ensures currentPortfolioId == old(currentPortfolioId) + 1
    {
      var id := currentPortfolioId;
      currentPortfolioId := currentPortfolioId + 1;
      holding := NewHolding(id, insertHolding);
      portfolioHoldings := portfolioHoldings[id := holding];
    }

    /** Sets shares, average cost and total value of holding `id`; an unknown id changes nothing. */
    method UpdatePortfolioHolding(id: int, shares: int, averageCost: real, totalValue: real)
      requires Valid()
      modifies this`portfolioHoldings
      ensures Valid()
      ensures id in old(portfolioHoldings) ==>
        portfolioHoldings == old(portfolioHoldings)[id := old(portfolioHoldings)[id].(
          shares := shares, averageCost := averageCost, totalValue := totalValue)]
      ensures id !in old(portfolioHoldings) ==> portfolioHoldings == old(portfolioHoldings)
    {
      if id in portfolioHoldings {
        portfolioHoldings := portfolioHoldings[id := portfolioHoldings[id].(
          shares := shares, averageCost := averageCost, totalValue := totalValue)];
      }
    }

    /** Removes exactly the key `id`. */
    method DeletePortfolioHolding(id: int)
      requires Valid()
      modifies this`portfolioHoldings
      ensures Valid()
      ensures portfolioHoldings == old(portfolioHoldings) - {id}
      ensures id !in portfolioHoldings
      ensures forall k :: k in old(portfolioHoldings) && k != id ==>
        k in portfolioHoldings && portfolioHoldings[k] == old(portfolioHoldings)[k]
    {
      portfolioHoldings := portfolioHoldings - {id};
    }

    // Trade operations

    /** Takes the next trade id and appends the trade, stamped with the clock reading `now`. */
    method CreateTrade(insertTrade: InsertTrade, now: int) returns (trade: Trade)
      requires Valid()
      modifies this`trades, this`currentTradeId
      ensures Valid()
      ensures trade == NewTrade(old(currentTradeId), insertTrade, now)
      ensures forall k :: k in old(trades) ==> k < trade.id
      ensures trades == old(trades)[trade.id := trade]
      ensures currentTradeId == old(currentTradeId) + 1
    {
      var id := currentTradeId;
      currentTradeId := currentTradeId + 1;
      trade := NewTrade(id, insertTrade, now);
      trades := trades[id := trade];
    }

    /**
     * `limit` of the user's trades (all of them when there are fewer), newest
     * first, each once; any of the user's trades left out is no newer than
     * every trade returned.
     */
    function GetUserTrades(userId: int, limit: int := 50): (r: seq<Trade>)
      reads this
      requires Valid()
      ensures limit >= 0 ==> |r| == Min(limit, TradeCount(trades, userId))
      ensures SortedDesc(r, TradeTime)
      ensures forall i :: 0 <= i < |r| ==> r[i].userId == userId && r[i].id in trades && trades[r[i].id] == r[i]
      ensures forall i, j :: 0 <= i < j < |r| ==> r[i].id != r[j].id
      ensures forall k, j :: k in trades && trades[k].userId == userId && trades[k] !in r && 0 <= j < |r| ==>
        trades[k].createdAt <= r[j].createdAt
      ensures UserTimeTiesByCreation(trades, userId, r)
    {
      NewestTradesListed(trades, currentTradeId, userId, limit);
      NewestTradesKept(trades, currentTradeId, userId, limit);
      NewestTradesTies(trades, currentTradeId, userId, limit);
      NewestTradesOf(trades, currentTradeId, userId, limit)
    }

    /**
     * The `limit` newest trades of anyone (all of them when there are fewer),
     * newest first, each once; any trade left out is no newer than every
     * trade returned.
     */
    function GetRecentTrades(limit: int := 50): (r: seq<Trade>)
      reads this
      requires Valid()
      ensures limit >= 0 ==> |r| == Min(limit, |trades|)
      ensures SortedDesc(r, TradeTime)
      ensures forall i :: 0 <= i < |r| ==> r[i].id in trades && trades[r[i].id] == r[i]
      ensures forall i, j :: 0 <= i < j < |r| ==> r[i].id != r[j].id
      ensures forall k, j :: k in trades && trades[k] !in r && 0 <= j < |r| ==> trades[k].createdAt <= r[j].createdAt
      ensures TimeTiesByCreation(trades, r)
    {
      var all := ValuesBelow(trades, currentTradeId);
      var r := TopBy(all, TradeTime, limit);
      ValuesBelowAll(trades, currentTradeId);
      ListedStored(trades, currentTradeId, r, (t: Trade) => t.id);
      RecentOmittedOlder(trades, all, r);
      RecentTradesTies(trades, currentTradeId, limit);
      r
    }

    // Leaderboard

    /**
     * At most `limit` users ordered by their stored portfolio value, largest
     * first; anyone left out has a stored value no larger than anyone listed.
     */
    function GetTopTraders(limit: int := 10): (r: seq<User>)
      reads this
      requires Valid()
      ensures limit >= 0 ==> |r| == Min(limit, |users|)
      ensures SortedDesc(r, PortfolioValueKey)
      ensures forall i :: 0 <= i < |r| ==> r[i].id in users && users[r[i].id] == r[i]
      ensures forall i, j :: 0 <= i < j < |r| ==> r[i].id != r[j].id
      ensures forall k, j :: k in users && users[k] !in r && 0 <= j < |r| ==>
        users[k].portfolioValue <= r[j].portfolioValue
      ensures ValueTiesByCreation(users, r)
    {
      TopTradersOf(users, currentUserId, limit)
    }
  }
}
