/**
 * getNetWorth and its two helpers as imperative code over a mutable NetWorth
 * object (index.ts, lines 177-270), each proved to perform the updates that
 * `Aggregation` describes.
 */
module NetWorthBuilder {
  import opened Holdings
  import opened Aggregation

  /** The NetWorth record that getNetWorth fills in place. */
  class NetWorth {
    var value: real
    var networks: seq<string>
    var prices: map<string, real>
    var balances: map<string, real>
    var products: map<string, ProductTotal>

    /** The record's current value. */
    function Snapshot(): Summary
      reads this
    {
      Summary(value, networks, prices, balances, products)
    }

    /** The literal at index.ts, lines 178-184. */
    constructor ()
      ensures Snapshot() == Empty()
    {
      value := 0.0;
      networks := [];
      prices := map[];
      balances := map[];
      products := map[];
    }

    /** updateNetworthNetworks (index.ts, lines 246-250). */
    method UpdateNetworks(network: string)
      modifies this
      ensures Snapshot() == AddNetwork(old(Snapshot()), network)
      ensures network in networks
      ensures network in old(networks) ==> networks == old(networks)
      ensures network !in old(networks) ==> networks == old(networks) + [network]
      ensures value == old(value) && prices == old(prices)
      ensures balances == old(balances) && products == old(products)
    {
      if network !in networks {
        networks := networks + [network];
      }
    }

    /** updateNetworthToken (index.ts, lines 252-270). */
    method UpdateToken(symbol: string, price: real, balance: real)
      modifies this
      ensures Snapshot() == RecordToken(old(Snapshot()), symbol, price, balance)
      ensures value == old(value) && networks == old(networks) && products == old(products)
      // an empty symbol changes nothing
      ensures symbol == "" ==> prices == old(prices) && balances == old(balances)
      // a symbol already priced with a non-zero price is frozen
      ensures symbol in old(prices) && old(prices)[symbol] != 0.0 ==>
                prices == old(prices) && balances == old(balances)
      // the recording call: the price is set, and the balance when it is non-zero
      ensures symbol != "" && (symbol !in old(prices) || old(prices)[symbol] == 0.0) ==>
                && prices == old(prices)[symbol := price]
                && balances == (if balance != 0.0 then old(balances)[symbol := balance] else old(balances))
    {
      if symbol == "" {
        return;
      }
      if symbol !in prices || prices[symbol] == 0.0 {
        prices := prices[symbol := price];
        if balance != 0.0 {
          balances := balances[symbol := 0.0];
          balances := balances[symbol := balances[symbol] + balance];
        }
      }
    }

    /** index.ts, lines 227-233: `products[appName].tokens[symbol] += amount`, from 0 when unset or 0. */
    method AddProductToken(appName: string, symbol: string, amount: real)
      requires appName in products
      modifies this
      ensures Snapshot() == Step(old(Snapshot()), Event.AddProductToken(appName, symbol, amount))
      ensures value == old(value) && networks == old(networks)
      ensures prices == old(prices) && balances == old(balances)
      ensures products.Keys == old(products.Keys)
      ensures products[appName].value == old(products[appName].value)
      ensures products[appName].tokens.Keys == old(products[appName].tokens.Keys) + {symbol}
      ensures products[appName].tokens[symbol] ==
                (if symbol in old(products[appName].tokens) then old(products[appName].tokens[symbol]) else 0.0) + amount
      ensures forall other :: other in products && other != appName ==> products[other] == old(products[other])
    {
      var entry := products[appName];
      var tokens := entry.tokens;
      if symbol !in tokens || tokens[symbol] == 0.0 {
        tokens := tokens[symbol := 0.0];
      }
      tokens := tokens[symbol := tokens[symbol] + amount];
      assert tokens == entry.tokens[symbol := AmountOr0(entry.tokens, symbol) + amount];
      products := products[appName := entry.(tokens := tokens)];
    }

    /** index.ts, lines 211-213: create `products[appName]` as `{value: 0, tokens: {}}` if it is missing. */
    method OpenProduct(appName: string)
      modifies this
      ensures Snapshot() == Step(old(Snapshot()), Event.OpenProduct(appName))
      ensures appName in products
      ensures appName in old(products) ==> products == old(products)
      ensures appName !in old(products) ==> products == old(products)[appName := ProductTotal(0.0, map[])]
      ensures value == old(value) && networks == old(networks)
      ensures prices == old(prices) && balances == old(balances)
    {
      if appName !in products {
        products := products[appName := ProductTotal(0.0, map[])];
      }
    }

    /** index.ts, line 239: `products[appName].value += usd`. */
    method AddProductValue(appName: string, usd: real)
      requires appName in products
      modifies this
      ensures Snapshot() == Step(old(Snapshot()), Event.AddProductValue(appName, usd))
      ensures products == old(products)[appName := old(products[appName]).(value := old(products[appName].value) + usd)]
      ensures value == old(value) && networks == old(networks)
      ensures prices == old(prices) && balances == old(balances)
    {
      var entry := products[appName];
      products := products[appName := entry.(value := entry.value + usd)];
    }

    /** index.ts, lines 202 and 240: `value += usd`. */
    method AddValue(usd: real)
      modifies this
      ensures Snapshot() == Step(old(Snapshot()), Event.AddValue(usd))
      ensures value == old(value) + usd
      ensures networks == old(networks) && prices == old(prices)
      ensures balances == old(balances) && products == old(products)
    {
      value := value + usd;
    }
  }

  /** getNetWorth (index.ts, lines 177-244). */
  method GetNetWorth(portfolio: Portfolio, balanceThreshold: real) returns (netWorth: NetWorth)
    ensures fresh(netWorth)
    ensures netWorth.Snapshot() == Aggregate(portfolio, balanceThreshold)
  {
    netWorth := new NetWorth();
    var tokenBalances, appBalances := portfolio.tokenBalances, portfolio.appBalances;

    // Token balances
    for i := 0 to |tokenBalances|
      invariant netWorth.Snapshot() == Replay(Empty(), TokenBalancesEvents(tokenBalances[..i], balanceThreshold))
    {
      var tokenBalance := tokenBalances[i];
      var token := tokenBalance.token;
      var baseToken := token.baseToken;
      ghost var before := netWorth.Snapshot();
      TokenBalancesStep(tokenBalances, i, balanceThreshold);

      if token.balanceUSD <= balanceThreshold {
        continue;
      }

      netWorth.UpdateNetworks(tokenBalance.network);
      netWorth.UpdateToken(baseToken.symbol, baseToken.price, token.balance);
      netWorth.AddValue(token.balanceUSD);

      ReplayThree(before, SeeNetwork(tokenBalance.network),
                  SeeToken(baseToken.symbol, baseToken.price, token.balance), AddValue(token.balanceUSD));
    }
    assert tokenBalances[..|tokenBalances|] == tokenBalances;
    ghost var afterTokens := netWorth.Snapshot();

    // App (product) balances
    for i := 0 to |appBalances|
      invariant netWorth.Snapshot() == Replay(afterTokens, AppBalancesEvents(appBalances[..i], balanceThreshold))
    {
      var appBalance := appBalances[i];
      AppBalancesStep(afterTokens, appBalances, i, balanceThreshold);

      if appBalance.balanceUSD <= balanceThreshold {
        continue;
      }

      AddAppBalance(netWorth, appBalance);
    }
    assert appBalances[..|appBalances|] == appBalances;
    ReplayAppend(Empty(), TokenBalancesEvents(tokenBalances, balanceThreshold),
                 AppBalancesEvents(appBalances, balanceThreshold));
  }

  /** One more token balance replays its own events after the earlier ones. */
  lemma TokenBalancesStep(tbs: seq<TokenBalance>, i: nat, threshold: real)
    requires i < |tbs|
    ensures Replay(Empty(), TokenBalancesEvents(tbs[..i + 1], threshold))
         == Replay(Replay(Empty(), TokenBalancesEvents(tbs[..i], threshold)), TokenBalanceEvents(tbs[i], threshold))
  {
    assert tbs[..i + 1][..i] == tbs[..i];
    ReplayAppend(Empty(), TokenBalancesEvents(tbs[..i], threshold), TokenBalanceEvents(tbs[i], threshold));
  }

  /** One more app balance replays its own events after the earlier ones. */
  lemma AppBalancesStep(s: Summary, apps: seq<AppBalance>, i: nat, threshold: real)
    requires i < |apps|
    ensures Replay(s, AppBalancesEvents(apps[..i + 1], threshold))
         == Replay(Replay(s, AppBalancesEvents(apps[..i], threshold)), AppBalanceEvents(apps[i], threshold))
  {
    assert apps[..i + 1][..i] == apps[..i];
    ReplayAppend(s, AppBalancesEvents(apps[..i], threshold), AppBalanceEvents(apps[i], threshold));
  }

  /** The updates of an admitted app: open its entry, its tokens' updates, then the closing three. */
  lemma ReplayAdmittedApp(before: Summary, app: AppBalance)
    ensures Replay(before, AdmittedAppEvents(app))
         == Replay(Replay(Step(before, OpenProduct(app.appName)), ProductsEvents(app.appName, app.products)),
                   [SeeNetwork(app.network), AddProductValue(app.appName, app.balanceUSD), AddValue(app.balanceUSD)])
  {
    var head := [OpenProduct(app.appName)];
    var middle := ProductsEvents(app.appName, app.products);
    var tail := [SeeNetwork(app.network), AddProductValue(app.appName, app.balanceUSD), AddValue(app.balanceUSD)];
    ReplaySnoc(before, [], OpenProduct(app.appName));
    assert [] + [OpenProduct(app.appName)] == head;
    ReplayAppend(before, head, middle);
    ReplayAppend(before, head + middle, tail);
  }

  /** The body of the app loop of getNetWorth (index.ts, lines 211-240) for an admitted app. */
  method AddAppBalance(netWorth: NetWorth, appBalance: AppBalance)
    modifies netWorth
    ensures netWorth.Snapshot() == Replay(old(netWorth.Snapshot()), AdmittedAppEvents(appBalance))
  {
    var appName := appBalance.appName;
    ReplayAdmittedApp(netWorth.Snapshot(), appBalance);

    netWorth.OpenProduct(appName);
    AddProductsTokens(netWorth, appName, appBalance.products);
    ghost var afterProducts := netWorth.Snapshot();

    netWorth.UpdateNetworks(appBalance.network);
    netWorth.AddProductValue(appName, appBalance.balanceUSD);
    netWorth.AddValue(appBalance.balanceUSD);
    ReplayThree(afterProducts, SeeNetwork(appBalance.network), AddProductValue(appName, appBalance.balanceUSD),
                AddValue(appBalance.balanceUSD));
  }

  /** The three nested loops of index.ts, lines 215-236, over one app's products. */
  method AddProductsTokens(netWorth: NetWorth, appName: string, products: seq<Product>)
    requires appName in netWorth.products
    modifies netWorth
    ensures appName in netWorth.products
    ensures netWorth.Snapshot() == Replay(old(netWorth.Snapshot()), ProductsEvents(appName, products))
  {
    ghost var start := netWorth.Snapshot();
    for j := 0 to |products|
      invariant appName in netWorth.products
      invariant netWorth.Snapshot() == Replay(start, ProductsEvents(appName, products[..j]))
    {
      var assets := products[j].assets;
      ghost var productStart := netWorth.Snapshot();
      for k := 0 to |assets|
        invariant appName in netWorth.products
        invariant netWorth.Snapshot() == Replay(productStart, AssetsEvents(appName, assets[..k]))
      {
        var entries := assets[k].tokens;
        ghost var assetStart := netWorth.Snapshot();
        for l := 0 to |entries|
          invariant appName in netWorth.products
          invariant netWorth.Snapshot() == Replay(assetStart, AssetTokensEvents(appName, entries[..l]))
        {
          var token := Effective(entries[l]);
          ghost var tokenStart := netWorth.Snapshot();
          netWorth.UpdateToken(token.symbol, token.price, token.balance);
          netWorth.AddProductToken(appName, token.symbol, token.balance);
          ReplayTwo(tokenStart, SeeToken(token.symbol, token.price, token.balance),
                    AddProductToken(appName, token.symbol, token.balance));
          assert entries[..l + 1][..l] == entries[..l];
          ReplayAppend(assetStart, AssetTokensEvents(appName, entries[..l]), AssetTokenEvents(appName, entries[l]));
        }
        assert entries[..|entries|] == entries;
        assert assets[..k + 1][..k] == assets[..k];
        ReplayAppend(productStart, AssetsEvents(appName, assets[..k]), AssetTokensEvents(appName, entries));
      }
      assert assets[..|assets|] == assets;
      assert products[..j + 1][..j] == products[..j];
      ReplayAppend(start, ProductsEvents(appName, products[..j]), AssetsEvents(appName, assets));
    }
    assert products[..|products|] == products;
  }
}
