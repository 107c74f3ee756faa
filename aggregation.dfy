/**
 * What getNetWorth (index.ts, lines 177-244) computes, as a fold.
 *
 * getNetWorth builds one mutable NetWorth record by a fixed sequence of
 * in-place updates. Each kind of update is an `Event`; `Step` is the effect
 * of one update on a `Summary` (the record's value), `Trace` lists the updates
 * getNetWorth performs on a portfolio in the order it performs them, and
 * `Aggregate` replays them from the empty record.
 */
module Aggregation {
  import opened Holdings

  /** An entry of `NetWorth.products`: the app's USD total and its per-symbol token amounts. */
  datatype ProductTotal = ProductTotal(value: real, tokens: map<string, real>)

  /** The NetWorth record of index.ts, lines 92-100. */
  datatype Summary = Summary(
    value: real,
    networks: seq<string>,
    prices: map<string, real>,
    balances: map<string, real>,
    products: map<string, ProductTotal>)

  function Empty(): Summary {
    Summary(0.0, [], map[], map[], map[])
  }

  /** One in-place update of the NetWorth record. */
  datatype Event =
    | SeeNetwork(network: string)                                   // updateNetworthNetworks
    | SeeToken(symbol: string, price: real, balance: real)          // updateNetworthToken
    | OpenProduct(appName: string)                                  // create products[appName] if missing
    | AddProductToken(appName: string, symbol: string, amount: real) // products[appName].tokens[symbol] += amount
    | AddProductValue(appName: string, usd: real)                   // products[appName].value += usd
    | AddValue(usd: real)                                           // value += usd

  /** `m[k]`, where an absent key reads as 0 (the `!x` reset of index.ts, line 227). */
  function AmountOr0(m: map<string, real>, k: string): real {
    if k in m then m[k] else 0.0
  }

  /** `products[appName]`, or the fresh entry `{value: 0, tokens: {}}`. */
  function Entry(s: Summary, appName: string): ProductTotal {
    if appName in s.products then s.products[appName] else ProductTotal(0.0, map[])
  }

  /** updateNetworthNetworks (index.ts, lines 246-250): append the network unless already listed. */
  function AddNetwork(s: Summary, network: string): Summary {
    if network in s.networks then s else s.(networks := s.networks + [network])
  }

  /**
   * updateNetworthToken (index.ts, lines 252-270). An empty symbol is ignored;
   * a symbol with no price or a zero price records `price`, and then
   * `balance` when it is non-zero; a symbol with a non-zero price is left alone.
   */
  function RecordToken(s: Summary, symbol: string, price: real, balance: real): Summary {
    if symbol == "" then s
    else if symbol !in s.prices || s.prices[symbol] == 0.0 then
      s.(prices := s.prices[symbol := price],
         balances := if balance != 0.0 then s.balances[symbol := balance] else s.balances)
    else s
  }

  function Step(s: Summary, e: Event): Summary {
    match e
    case SeeNetwork(network) => AddNetwork(s, network)
    case SeeToken(symbol, price, balance) => RecordToken(s, symbol, price, balance)
    case OpenProduct(appName) =>
      if appName in s.products then s
      else s.(products := s.products[appName := ProductTotal(0.0, map[])])
    case AddProductToken(appName, symbol, amount) =>
      var entry := Entry(s, appName);
      var tokens := entry.tokens[symbol := AmountOr0(entry.tokens, symbol) + amount];
      s.(products := s.products[appName := entry.(tokens := tokens)])
    case AddProductValue(appName, usd) =>
      var entry := Entry(s, appName);
      s.(products := s.products[appName := entry.(value := entry.value + usd)])
    case AddValue(usd) => s.(value := s.value + usd)
  }

  /** The record after performing `es` in order, starting from `s`. */
  function Replay(s: Summary, es: seq<Event>): Summary
    decreases |es|
  {
    if es == [] then s else Step(Replay(s, es[..|es| - 1]), es[|es| - 1])
  }

  /** Lines 187-203 for one token balance: skipped unless its USD balance exceeds the threshold. */
  function TokenBalanceEvents(tb: TokenBalance, threshold: real): seq<Event> {
    if tb.token.balanceUSD <= threshold then []
    else [SeeNetwork(tb.network),
          SeeToken(tb.token.baseToken.symbol, tb.token.baseToken.price, tb.token.balance),
          AddValue(tb.token.balanceUSD)]
  }

  function TokenBalancesEvents(tbs: seq<TokenBalance>, threshold: real): seq<Event> {
    if tbs == [] then []
    else TokenBalancesEvents(tbs[..|tbs| - 1], threshold) + TokenBalanceEvents(tbs[|tbs| - 1], threshold)
  }

  /** Lines 217-233 for one token entry of an asset. */
  function AssetTokenEvents(appName: string, entry: AssetToken): seq<Event> {
    var token := Effective(entry);
    [SeeToken(token.symbol, token.price, token.balance),
     AddProductToken(appName, token.symbol, token.balance)]
  }

  function AssetTokensEvents(appName: string, entries: seq<AssetToken>): seq<Event> {
    if entries == [] then []
    else AssetTokensEvents(appName, entries[..|entries| - 1]) + AssetTokenEvents(appName, entries[|entries| - 1])
  }

  function AssetsEvents(appName: string, assets: seq<Asset>): seq<Event> {
    if assets == [] then []
    else AssetsEvents(appName, assets[..|assets| - 1]) + AssetTokensEvents(appName, assets[|assets| - 1].tokens)
  }

  function ProductsEvents(appName: string, products: seq<Product>): seq<Event> {
    if products == [] then []
    else ProductsEvents(appName, products[..|products| - 1]) + AssetsEvents(appName, products[|products| - 1].assets)
  }

  /** Lines 206-240 for one app balance: skipped unless its USD balance exceeds the threshold. */
  function AppBalanceEvents(app: AppBalance, threshold: real): seq<Event> {
    if app.balanceUSD <= threshold then [] else AdmittedAppEvents(app)
  }

  /** The events of an app balance that passed the threshold: open its entry, its tokens' updates, then the closing three. */
  function AdmittedAppEvents(app: AppBalance): seq<Event> {
    [OpenProduct(app.appName)]
    + ProductsEvents(app.appName, app.products)
    + [SeeNetwork(app.network), AddProductValue(app.appName, app.balanceUSD), AddValue(app.balanceUSD)]
  }

  function AppBalancesEvents(apps: seq<AppBalance>, threshold: real): seq<Event> {
    if apps == [] then []
    else AppBalancesEvents(apps[..|apps| - 1], threshold) + AppBalanceEvents(apps[|apps| - 1], threshold)
  }

  /** Every update getNetWorth performs: token balances first, then app balances. */
  function Trace(p: Portfolio, threshold: real): seq<Event> {
    TokenBalancesEvents(p.tokenBalances, threshold) + AppBalancesEvents(p.appBalances, threshold)
  }

  /** The NetWorth record getNetWorth returns. */
  function Aggregate(p: Portfolio, threshold: real): Summary {
    Replay(Empty(), Trace(p, threshold))
  }

  /** Replaying one more event is one more step. */
  lemma ReplaySnoc(s: Summary, es: seq<Event>, e: Event)
    ensures Replay(s, es + [e]) == Step(Replay(s, es), e)
  {
    assert (es + [e])[..|es|] == es;
  }

  lemma ReplayTwo(s: Summary, a: Event, b: Event)
    ensures Replay(s, [a, b]) == Step(Step(s, a), b)
  {
    ReplaySnoc(s, [], a);
    ReplaySnoc(s, [a], b);
  }

  lemma ReplayThree(s: Summary, a: Event, b: Event, c: Event)
    ensures Replay(s, [a, b, c]) == Step(Step(Step(s, a), b), c)
  {
    ReplayTwo(s, a, b);
    ReplaySnoc(s, [a, b], c);
    assert [a, b] + [c] == [a, b, c];
  }

  /** Concatenation regroups freely. */
  lemma AppendAssociative<T>(a: seq<T>, b: seq<T>, c: seq<T>)
    ensures a + b + c == a + (b + c)
  {
  }

  /** Replaying a concatenation replays its parts one after the other. */
  lemma {:induction false} ReplayAppend(s: Summary, xs: seq<Event>, ys: seq<Event>)
    ensures Replay(s, xs + ys) == Replay(Replay(s, xs), ys)
    decreases |ys|
  {
    if ys == [] {
      assert xs + ys == xs;
    } else {
      var init, last := ys[..|ys| - 1], ys[|ys| - 1];
      assert ys == init + [last];
      assert xs + ys == (xs + init) + [last];
      ReplaySnoc(s, xs + init, last);
      ReplayAppend(s, xs, init);
      ReplaySnoc(Replay(s, xs), init, last);
    }
  }
}
