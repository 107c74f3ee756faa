/** Concrete runs of getNetWorth, worked out on the model. */
module Scenarios {
  import opened Wrappers
  import opened Holdings
  import opened Aggregation
  import ProductFacts
  import NetworkFacts

  function Held(network: string, symbol: string, price: real, balance: real, usd: real): TokenBalance {
    TokenBalance(network, HeldToken(balance, usd, BaseToken(symbol, price)))
  }

  /** One ETH token balance and no apps, threshold 0. */
  lemma SingleTokenBalance()
    ensures Aggregate(Portfolio([Held("ETHEREUM_MAINNET", "ETH", 2000.0, 1.5, 3000.0)], []), 0.0)
         == Summary(3000.0, ["ETHEREUM_MAINNET"], map["ETH" := 2000.0], map["ETH" := 1.5], map[])
  {
    var tb := Held("ETHEREUM_MAINNET", "ETH", 2000.0, 1.5, 3000.0);
    var es := TokenBalanceEvents(tb, 0.0);
    assert [tb][..0] == [];
    assert TokenBalancesEvents([tb], 0.0) == TokenBalancesEvents([], 0.0) + es == es;
    assert Trace(Portfolio([tb], []), 0.0) == es + [];
    assert Trace(Portfolio([tb], []), 0.0) == es;
    ReplayThree(Empty(), es[0], es[1], es[2]);
  }

  /** An app balance of 20 USD under a threshold of 500 is skipped: no products entry. */
  lemma SmallAppSkipped(app: AppBalance)
    requires app.balanceUSD == 20.0
    ensures Aggregate(Portfolio([], [app]), 500.0) == Empty()
  {
    assert [app][..0] == [];
    assert AppBalancesEvents([app], 500.0) == AppBalancesEvents([], 500.0) + AppBalanceEvents(app, 500.0) == [];
    assert Trace(Portfolio([], [app]), 500.0) == [] + [];
    assert Trace(Portfolio([], [app]), 500.0) == [];
  }

  /** The record after the three updates of one admitted token balance. */
  function Admit(s: Summary, tb: TokenBalance): Summary {
    var r := RecordToken(AddNetwork(s, tb.network), tb.token.baseToken.symbol, tb.token.baseToken.price, tb.token.balance);
    r.(value := r.value + tb.token.balanceUSD)
  }

  lemma ReplayAdmit(s: Summary, tb: TokenBalance, threshold: real)
    requires tb.token.balanceUSD > threshold
    ensures Replay(s, TokenBalanceEvents(tb, threshold)) == Admit(s, tb)
  {
    var es := TokenBalanceEvents(tb, threshold);
    ReplayThree(s, es[0], es[1], es[2]);
  }

  lemma TwoAdmittedTokenBalances(a: TokenBalance, b: TokenBalance, threshold: real)
    requires a.token.balanceUSD > threshold && b.token.balanceUSD > threshold
    ensures Aggregate(Portfolio([a, b], []), threshold) == Admit(Admit(Empty(), a), b)
  {
    var ea, eb := TokenBalanceEvents(a, threshold), TokenBalanceEvents(b, threshold);
    assert [a, b][..1] == [a] && [a][..0] == [];
    assert TokenBalancesEvents([a], threshold) == TokenBalancesEvents([], threshold) + ea == ea;
    assert TokenBalancesEvents([a, b], threshold) == TokenBalancesEvents([a], threshold) + eb;
    assert Trace(Portfolio([a, b], []), threshold) == ea + eb + [];
    assert Trace(Portfolio([a, b], []), threshold) == ea + eb;
    ReplayAppend(Empty(), ea, eb);
    ReplayAdmit(Empty(), a, threshold);
    ReplayAdmit(Admit(Empty(), a), b, threshold);
  }

  /**
   * Two ETH token balances with balances 1 and 2: `balances` keeps the first
   * (the price is already set when the second arrives), not their sum 3.
   */
  lemma RepeatedSymbolKeepsFirstBalance()
    ensures var r := Aggregate(Portfolio([Held("ETHEREUM_MAINNET", "ETH", 2000.0, 1.0, 2000.0),
                                          Held("BASE_MAINNET", "ETH", 2000.0, 2.0, 4000.0)], []), 0.0);
            r.balances == map["ETH" := 1.0] && r.value == 6000.0
            && r.networks == ["ETHEREUM_MAINNET", "BASE_MAINNET"]
  {
    var a, b := Held("ETHEREUM_MAINNET", "ETH", 2000.0, 1.0, 2000.0), Held("BASE_MAINNET", "ETH", 2000.0, 2.0, 4000.0);
    TwoAdmittedTokenBalances(a, b, 0.0);
    var first := Admit(Empty(), a);
    assert first == Summary(2000.0, ["ETHEREUM_MAINNET"], map["ETH" := 2000.0], map["ETH" := 1.0], map[]);
    assert "BASE_MAINNET" !in first.networks;
    assert Admit(first, b).balances == first.balances;
  }

  /** A price recorded as 0 is overwritten by the next non-zero price, together with the balance. */
  lemma ZeroPriceOverwritten()
    ensures var r := Aggregate(Portfolio([Held("POLYGON_MAINNET", "USDC", 0.0, 5.0, 10.0),
                                          Held("POLYGON_MAINNET", "USDC", 1.0, 7.0, 10.0)], []), 0.0);
            r.prices == map["USDC" := 1.0] && r.balances == map["USDC" := 7.0]
  {
    var a, b := Held("POLYGON_MAINNET", "USDC", 0.0, 5.0, 10.0), Held("POLYGON_MAINNET", "USDC", 1.0, 7.0, 10.0);
    TwoAdmittedTokenBalances(a, b, 0.0);
    var first := Admit(Empty(), a);
    assert first.prices == map["USDC" := 0.0] && first.balances == map["USDC" := 5.0];
    assert Admit(first, b).prices == first.prices["USDC" := 1.0];
  }

  /**
   * Two Aave app balances of 1000 USD each on two networks share the one
   * `products["Aave"]` entry, worth 2000, and list both networks in order.
   */
  lemma SameNamedAppsShareEntry(a: AppBalance, b: AppBalance)
    requires a.appName == "Aave" && b.appName == "Aave"
    requires a.balanceUSD == 1000.0 && b.balanceUSD == 1000.0
    requires a.network != b.network
    ensures var r := Aggregate(Portfolio([], [a, b]), 0.0);
            && r.products.Keys == {"Aave"}
            && r.products["Aave"].value == 2000.0
            && r.networks == [a.network, b.network]
  {
    var p := Portfolio([], [a, b]);
    assert [a, b][..1] == [a] && [a][..0] == [];
    assert ProductFacts.AdmittedAppNames([a], 0.0) == ProductFacts.AdmittedAppNames([], 0.0) + ["Aave"] == ["Aave"];
    assert ProductFacts.AdmittedAppNames([a, b], 0.0) == ProductFacts.AdmittedAppNames([a], 0.0) + ["Aave"];
    forall name | true
      ensures name in Aggregate(p, 0.0).products <==> name == "Aave"
    {
      ProductFacts.ProductsOfAdmittedApps(p, 0.0, name);
    }
    ProductFacts.ProductValueIsNamedTotal(p, 0.0, "Aave");
    assert ProductFacts.NamedAppUsd("Aave", [a], 0.0) == ProductFacts.NamedAppUsd("Aave", [], 0.0) + 1000.0;
    assert ProductFacts.NamedAppUsd("Aave", [a, b], 0.0) == ProductFacts.NamedAppUsd("Aave", [a], 0.0) + 1000.0;
    NetworkFacts.NetworksInFirstSeenOrder(p, 0.0);
    var ns := [a.network, b.network];
    assert NetworkFacts.AdmittedAppNetworks([a], 0.0) == NetworkFacts.AdmittedAppNetworks([], 0.0) + [a.network];
    assert NetworkFacts.AdmittedAppNetworks([a, b], 0.0) == NetworkFacts.AdmittedAppNetworks([a], 0.0) + [b.network];
    assert NetworkFacts.AdmittedNetworks(p, 0.0) == [] + ns;
    assert ns[..1] == [a.network] && [a.network][..0] == [];
    assert NetworkFacts.FirstOccurrences([a.network]) == NetworkFacts.FirstOccurrences([]) + [a.network];
    assert NetworkFacts.FirstOccurrences(ns) == NetworkFacts.FirstOccurrences([a.network]) + [b.network];
  }
}
